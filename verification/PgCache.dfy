/** The shadow page-table cache of hype/x86/pgcache.c and pgcache.h: page-directory and page-table
    frames with free lists, a hash of directories in use, links from directories to tables and
    back, and the shadow entries the hardware walks. */
module PgCache {
  import opened Lists
  import opened Pte

  const NR_ENTRIES: nat := 1024          // NR_MMU_PDES, NR_MMU_PTES
  const NR_LPAR_PGTABS: nat := 1008      // the rest maps the hypervisor
  const NR_FRAMES: nat := 512            // 4 * PGSIZE / 32
  const NR_DIRS: nat := 102              // NR_DIR_FRAMES, a fifth
  const NR_TABS: nat := NR_FRAMES - NR_DIRS
  const HASHSIZE: nat := 32

  function Hash(laddr: Entry): (h: nat)
    ensures h < HASHSIZE
  {
    ((laddr >> 12) & 0x1F) as nat
  }

  type Table = s: seq<Entry> | |s| == NR_ENTRIES witness seq(NR_ENTRIES, _ => 0)
  type Links = s: seq<Option<nat>> | |s| == NR_ENTRIES witness seq(NR_ENTRIES, _ => None)

  function ZeroPage(): (z: Table)
    ensures forall i :: 0 <= i < NR_ENTRIES ==> z[i] == 0
  {
    seq(NR_ENTRIES, _ => 0)
  }

  function NoLinks(): (z: Links)
    ensures forall i :: 0 <= i < NR_ENTRIES ==> z[i].None?
  {
    seq(NR_ENTRIES, _ => None)
  }

  /** A directory frame: `laddr` and `page` say where the guest's directory is, logically and
      physically; `hv` is the shadow directory, `pgt` the page-table frames behind it. */
  datatype Dir = Dir(laddr: Entry, page: Option<Entry>, hv: Table, pgt: Links, last: nat)

  /** A page-table frame, with the directory and index it is linked at when in use. */
  datatype Tab = Tab(laddr: Entry, page: Option<Entry>, hv: Table, pgd: Option<nat>, pdi: nat)

  datatype Cache = Cache(
    dirs: seq<Dir>,
    tabs: seq<Tab>,
    freeDirs: seq<nat>,
    freeTabs: seq<nat>,
    dirCount: nat,
    tabCount: nat,
    htab: seq<seq<nat>>)

  /** What is outside the cache and fixed while it runs: the shadow page of each table frame, the
      partition's address translation, its memory (by physical page and word), and what
      pgc_set_pte asks about its privileges. */
  datatype World = World(
    paddr: seq<Entry>,
    l2p: Entry -> Option<Entry>,
    guest: (Entry, nat) -> Entry,
    ioprivilege: bool,
    maxPhys: Entry)

  /** Shadow pages are page-aligned and distinct. */
  ghost predicate WorldOk(w: World) {
    && |w.paddr| == NR_TABS
    && (forall t :: 0 <= t < NR_TABS ==> PageAddr(w.paddr[t]) == w.paddr[t])
    && (forall t, u :: 0 <= t < u < NR_TABS ==> w.paddr[t] != w.paddr[u])
  }

  // ---------------------------------------------------------------------------------------------
  // The frame-cache invariant

  ghost predicate Sizes(c: Cache) {
    |c.dirs| == NR_DIRS && |c.tabs| == NR_TABS && |c.htab| == HASHSIZE
  }

  /** Directories in use are those in the hash table. */
  ghost predicate InUse(c: Cache, d: nat)
    requires Sizes(c)
  {
    d < NR_DIRS && d in c.htab[Hash(c.dirs[d].laddr)]
  }

  ghost predicate FreeOk(c: Cache) {
    && Distinct(c.freeDirs) && c.dirCount == |c.freeDirs| && (forall d :: d in c.freeDirs ==> d < NR_DIRS)
    && Distinct(c.freeTabs) && c.tabCount == |c.freeTabs| && (forall t :: t in c.freeTabs ==> t < NR_TABS)
  }

  ghost predicate HashOk(c: Cache)
    requires Sizes(c)
  {
    forall h :: 0 <= h < HASHSIZE ==>
                  Distinct(c.htab[h]) && forall d :: d in c.htab[h] ==> d < NR_DIRS && Hash(c.dirs[d].laddr) == h
  }

  /** The shadow directory entry that stands for table frame t. */
  ghost predicate PointsTo(w: World, e: Entry, t: nat) {
    t < |w.paddr| && Present(e) && !Large(e) && PageAddr(e) == w.paddr[t]
  }

  /** One entry of a directory: a link and the matching shadow entry, or no link and no small
      page table behind the shadow entry. */
  ghost predicate EntryOk(w: World, c: Cache, d: nat, i: nat)
    requires Sizes(c) && d < NR_DIRS && i < NR_ENTRIES
  {
    match c.dirs[d].pgt[i]
    case Some(t) =>
      && i < NR_LPAR_PGTABS && t < NR_TABS && c.tabs[t].pgd == Some(d) && c.tabs[t].pdi == i
      && PointsTo(w, c.dirs[d].hv[i], t)
    case None => i < NR_LPAR_PGTABS ==> !Present(c.dirs[d].hv[i]) || Large(c.dirs[d].hv[i])
  }

  ghost predicate DirOk(w: World, c: Cache, d: nat)
    requires Sizes(c) && d < NR_DIRS
  {
    && (forall i :: 0 <= i < NR_ENTRIES ==> EntryOk(w, c, d, i))
    && (d in c.freeDirs <==> !InUse(c, d))
    && (d in c.freeDirs ==> c.dirs[d].hv == ZeroPage() && c.dirs[d].pgt == NoLinks())
  }

  /** A table frame is free and blank, or linked from a directory in use at its own index. */
  ghost predicate TabOk(w: World, c: Cache, t: nat)
    requires Sizes(c) && t < NR_TABS
  {
    match c.tabs[t].pgd
    case None => t in c.freeTabs && c.tabs[t].hv == ZeroPage()
    case Some(d) => t !in c.freeTabs && d < NR_DIRS && InUse(c, d) && c.tabs[t].pdi < NR_LPAR_PGTABS
                    && c.dirs[d].pgt[c.tabs[t].pdi] == Some(t) && c.tabs[t].page == w.l2p(c.tabs[t].laddr)
                    && c.tabs[t].page.Some?
  }

  /** A table frame between allocation and linking. */
  ghost predicate Loose(c: Cache, t: nat)
    requires Sizes(c) && t < NR_TABS
  {
    c.tabs[t].pgd.None? && t !in c.freeTabs && c.tabs[t].hv == ZeroPage()
  }

  /** The invariant, with at most one frame loose. */
  ghost predicate InvBut(w: World, c: Cache, loose: Option<nat>) {
    && WorldOk(w) && Sizes(c) && FreeOk(c) && HashOk(c)
    && (forall d :: 0 <= d < NR_DIRS ==> DirOk(w, c, d))
    && (forall t :: 0 <= t < NR_TABS && Some(t) != loose ==> TabOk(w, c, t))
    && (loose.Some? ==> loose.value < NR_TABS && Loose(c, loose.value))
  }

  ghost predicate Inv(w: World, c: Cache) {
    InvBut(w, c, None)
  }

  // ---------------------------------------------------------------------------------------------
  // Freeing

  /** pgc_free_pgtab. */
  ghost function FreeTab(c: Cache, t: nat): Cache
    requires Sizes(c) && t < NR_TABS && c.tabs[t].pgd.Some? && c.tabs[t].pgd.value < NR_DIRS
    requires c.tabs[t].pdi < NR_ENTRIES
  {
    var d, i := c.tabs[t].pgd.value, c.tabs[t].pdi;
    c.(tabs := c.tabs[t := c.tabs[t].(pgd := None, hv := ZeroPage())],
       dirs := c.dirs[d := c.dirs[d].(pgt := c.dirs[d].pgt[i := None], hv := c.dirs[d].hv[i := 0])],
       freeTabs := [t] + c.freeTabs,
       tabCount := c.tabCount + 1)
  }

  /** Linked frames are in use: what a caller may free. */
  ghost predicate Linked(w: World, c: Cache, t: nat) {
    Sizes(c) && t < NR_TABS && c.tabs[t].pgd.Some? && TabOk(w, c, t)
  }

  /** Changing the contents of directories, but not their addresses, changes nobody's use. */
  lemma UseFrame(c: Cache, r: Cache)
    requires Sizes(c) && Sizes(r) && r.htab == c.htab
    requires forall d :: 0 <= d < NR_DIRS ==> r.dirs[d].laddr == c.dirs[d].laddr
    ensures forall d: nat :: InUse(r, d) <==> InUse(c, d)
    ensures HashOk(c) ==> HashOk(r)
  {
  }

  lemma FreeTabDir(w: World, c: Cache, t: nat, loose: Option<nat>, e: nat)
    requires InvBut(w, c, loose) && Linked(w, c, t) && Some(t) != loose && e < NR_DIRS
    ensures DirOk(w, FreeTab(c, t), e)
  {
    hide Distinct, Present, Large, PageAddr, Hash;
    var r := FreeTab(c, t);
    UseFrame(c, r);
    ZeroAbsent();
    assert DirOk(w, c, e);
    forall i | 0 <= i < NR_ENTRIES
      ensures EntryOk(w, r, e, i)
    {
      assert EntryOk(w, c, e, i);
    }
  }

  lemma FreeTabTab(w: World, c: Cache, t: nat, loose: Option<nat>, u: nat)
    requires InvBut(w, c, loose) && Linked(w, c, t) && Some(t) != loose && u < NR_TABS && Some(u) != loose
    ensures TabOk(w, FreeTab(c, t), u)
  {
    hide Distinct, Hash, DirOk, Inv;
    UseFrame(c, FreeTab(c, t));
    assert TabOk(w, c, u);
  }

  lemma FreeTabKeeps(w: World, c: Cache, t: nat, loose: Option<nat>)
    requires InvBut(w, c, loose) && Linked(w, c, t) && Some(t) != loose
    ensures InvBut(w, FreeTab(c, t), loose)
  {
    var r := FreeTab(c, t);
    assert FreeOk(r);
    hide DirOk, TabOk, Distinct, Hash, FreeOk;
    UseFrame(c, r);
    forall e | 0 <= e < NR_DIRS
      ensures DirOk(w, r, e)
    {
      FreeTabDir(w, c, t, loose, e);
    }
    forall u | 0 <= u < NR_TABS && Some(u) != loose
      ensures TabOk(w, r, u)
    {
      FreeTabTab(w, c, t, loose, u);
    }
  }

  /** The end of pgc_free_pgdir: blank the shadow directory, leave the hash, join the free list. */
  ghost function RetireDir(c: Cache, d: nat): Cache
    requires Sizes(c) && d < NR_DIRS
  {
    var h := Hash(c.dirs[d].laddr);
    c.(dirs := c.dirs[d := c.dirs[d].(hv := ZeroPage())],
       htab := c.htab[h := Without(c.htab[h], d)],
       freeDirs := [d] + c.freeDirs,
       dirCount := c.dirCount + 1)
  }

  /** A directory with no tables left. */
  ghost predicate Bare(c: Cache, d: nat)
    requires Sizes(c)
  {
    d < NR_DIRS && InUse(c, d) && c.dirs[d].pgt == NoLinks()
  }

  lemma RetireUse(w: World, c: Cache, d: nat, loose: Option<nat>)
    requires InvBut(w, c, loose) && InUse(c, d)
    ensures var r := RetireDir(c, d);
            Sizes(r) && HashOk(r) && FreeOk(r) && forall e: nat :: InUse(r, e) <==> InUse(c, e) && e != d
  {
    hide Hash, TabOk;
    var h := Hash(c.dirs[d].laddr);
    WithoutDistinct(c.htab[h], d);
    assert DirOk(w, c, d);
    assert d !in c.freeDirs;
  }

  lemma RetireDirOk(w: World, c: Cache, d: nat, loose: Option<nat>, e: nat)
    requires InvBut(w, c, loose) && Bare(c, d) && e < NR_DIRS
    ensures Sizes(RetireDir(c, d)) && DirOk(w, RetireDir(c, d), e)
  {
    RetireUse(w, c, d, loose);
    var r := RetireDir(c, d);
    hide Hash, TabOk, Present, Large, PageAddr, Without, InUse;
    ZeroAbsent();
    assert DirOk(w, c, e);
    forall i | 0 <= i < NR_ENTRIES
      ensures EntryOk(w, r, e, i)
    {
      assert EntryOk(w, c, e, i);
    }
  }

  lemma RetireKeeps(w: World, c: Cache, d: nat, loose: Option<nat>)
    requires InvBut(w, c, loose) && Bare(c, d)
    ensures InvBut(w, RetireDir(c, d), loose)
  {
    RetireUse(w, c, d, loose);
    var r := RetireDir(c, d);
    hide Hash, DirOk, Without, InUse, HashOk, FreeOk;
    forall e | 0 <= e < NR_DIRS
      ensures DirOk(w, r, e)
    {
      RetireDirOk(w, c, d, loose, e);
    }
    assert forall t :: 0 <= t < NR_TABS && Some(t) != loose ==> TabOk(w, c, t);
  }

  /** What freeing directory d, in part or in whole, leaves alone, and where its tables go. */
  ghost predicate Shed(c: Cache, d: nat, r: Cache) {
    && Sizes(c) && Sizes(r) && d < NR_DIRS
    && (forall e :: 0 <= e < NR_DIRS && e != d ==> r.dirs[e] == c.dirs[e])
    && r.dirs[d] == c.dirs[d].(hv := r.dirs[d].hv, pgt := r.dirs[d].pgt)
    && (forall t :: 0 <= t < NR_TABS && c.tabs[t].pgd != Some(d) ==> r.tabs[t] == c.tabs[t])
    && (forall t :: t in c.freeTabs ==> t in r.freeTabs)
    && (forall t :: t in r.freeTabs && t !in c.freeTabs ==> t < NR_TABS && c.tabs[t].pgd == Some(d))
  }

  /** The first i links of d are gone, the others as they were. */
  ghost predicate Stripping(w: World, c: Cache, d: nat, i: nat, r: Cache, loose: Option<nat>) {
    && InvBut(w, r, loose) && Shed(c, d, r) && r.htab == c.htab && r.freeDirs == c.freeDirs
    && (forall j :: 0 <= j < NR_ENTRIES ==>
                      r.dirs[d].pgt[j] == if j < i && j < NR_LPAR_PGTABS then None else c.dirs[d].pgt[j])
    && (forall t :: 0 <= t < NR_TABS && c.tabs[t].pgd == Some(d) && c.tabs[t].pdi >= i ==> r.tabs[t] == c.tabs[t])
  }

  lemma StripLink(w: World, c: Cache, d: nat, i: nat, r: Cache, loose: Option<nat>)
    requires InvBut(w, c, loose) && Stripping(w, c, d, i, r, loose) && i < NR_LPAR_PGTABS && r.dirs[d].pgt[i].Some?
    ensures var t := r.dirs[d].pgt[i].value;
            && Linked(w, r, t) && Some(t) != loose
            && r.tabs[t].pgd == Some(d) && r.tabs[t].pdi == i && c.tabs[t] == r.tabs[t]
  {
    hide Hash, Distinct, Present, Large, PageAddr;
    assert DirOk(w, r, d) && EntryOk(w, r, d, i) && DirOk(w, c, d) && EntryOk(w, c, d, i);
  }

  lemma ShedMore(c: Cache, d: nat, r: Cache, t: nat)
    requires Shed(c, d, r) && t < NR_TABS && r.tabs[t].pgd == Some(d) && c.tabs[t] == r.tabs[t]
    requires r.tabs[t].pdi < NR_ENTRIES
    ensures Shed(c, d, FreeTab(r, t))
  {
  }

  lemma StripFree(w: World, c: Cache, d: nat, i: nat, r: Cache, loose: Option<nat>, t: nat)
    requires Stripping(w, c, d, i, r, loose) && i < NR_LPAR_PGTABS
    requires t < NR_TABS && r.tabs[t].pgd == Some(d) && r.tabs[t].pdi == i
    requires c.tabs[t] == r.tabs[t] && InvBut(w, FreeTab(r, t), loose)
    ensures Stripping(w, c, d, i + 1, FreeTab(r, t), loose)
  {
    hide InvBut;
    ShedMore(c, d, r, t);
    hide Shed;
  }

  lemma StripNext(w: World, c: Cache, d: nat, i: nat, r: Cache, loose: Option<nat>)
    requires InvBut(w, c, loose) && Sizes(r) && d < NR_DIRS && Stripping(w, c, d, i, r, loose) && i < NR_LPAR_PGTABS
    ensures r.dirs[d].pgt[i].None? ==> Stripping(w, c, d, i + 1, r, loose)
    ensures r.dirs[d].pgt[i].Some? ==>
              && Linked(w, r, r.dirs[d].pgt[i].value)
              && Stripping(w, c, d, i + 1, FreeTab(r, r.dirs[d].pgt[i].value), loose)
  {
    hide InvBut, TabOk, Shed;
    if r.dirs[d].pgt[i].Some? {
      StripLink(w, c, d, i, r, loose);
      FreeTabKeeps(w, r, r.dirs[d].pgt[i].value, loose);
      StripFree(w, c, d, i, r, loose, r.dirs[d].pgt[i].value);
    }
  }

  /** Directory d has been freed: out of the hash, blank, its tables on the free list. */
  ghost predicate DirFreed(w: World, c: Cache, d: nat, r: Cache) {
    && Inv(w, c) && Inv(w, r) && Shed(c, d, r)
    && r.freeDirs == [d] + c.freeDirs
    && r.htab == c.htab[Hash(c.dirs[d].laddr) := Without(c.htab[Hash(c.dirs[d].laddr)], d)]
    && (forall e: nat :: InUse(r, e) <==> InUse(c, e) && e != d)
  }

  lemma StripStarts(w: World, c: Cache, d: nat)
    requires Inv(w, c) && d < NR_DIRS
    ensures Stripping(w, c, d, 0, c, None)
  {
  }

  lemma StripEnds(w: World, c: Cache, d: nat, r: Cache)
    requires Inv(w, c) && InUse(c, d) && Stripping(w, c, d, NR_LPAR_PGTABS, r, None)
    ensures Bare(r, d) && HashOk(r) && DirFreed(w, c, d, RetireDir(r, d))
  {
    assert Bare(r, d) by {
      hide Hash, Distinct;
      assert DirOk(w, c, d);
      forall j | 0 <= j < NR_ENTRIES
        ensures r.dirs[d].pgt[j] == NoLinks()[j]
      {
        assert EntryOk(w, c, d, j);
      }
      assert r.dirs[d].pgt == NoLinks();
      UseFrame(c, r);
    }
    UseFrame(c, r);
    RetireUse(w, r, d, None);
    RetireKeeps(w, r, d, None);
    hide InvBut, Hash, InUse, Without;
  }

  // ---------------------------------------------------------------------------------------------
  // The least recently used directory

  ghost predicate Below(list: seq<nat>, n: nat) {
    forall i :: 0 <= i < |list| ==> list[i] < n
  }

  /** The scan of pgc_garbage_collect over a list of directories: of those used least recently,
      the last one met. */
  function Lru(dirs: seq<Dir>, list: seq<nat>): (v: Option<nat>)
    requires Below(list, |dirs|)
    ensures v.Some? ==> v.value < |dirs| && v.value in list
    ensures v.None? <==> list == []
  {
    if list == [] then None
    else
      var n := |list| - 1;
      var v, x := Lru(dirs, list[..n]), list[n];
      if v.None? || dirs[v.value].last >= dirs[x].last then Some(x) else v
  }

  /** All chains of the hash table, one after the other. */
  function Scan(htab: seq<seq<nat>>): seq<nat> {
    if htab == [] then [] else Scan(htab[..|htab| - 1]) + htab[|htab| - 1]
  }

  ghost function Lengths(htab: seq<seq<nat>>): nat {
    if htab == [] then 0 else Lengths(htab[..|htab| - 1]) + |htab[|htab| - 1]|
  }

  /** The scan goes from chain to chain and along each. */
  lemma {:induction false} ScanPlace(htab: seq<seq<nat>>, h: nat, i: nat)
    requires h < |htab| && i < |htab[h]|
    ensures |Scan(htab)| == Lengths(htab)
    ensures Lengths(htab[..h]) + i < |Scan(htab)| && Scan(htab)[Lengths(htab[..h]) + i] == htab[h][i]
  {
    var n := |htab| - 1;
    ScanLength(htab[..n]);
    if h < n {
      ScanPlace(htab[..n], h, i);
      assert htab[..n][..h] == htab[..h];
    }
  }

  lemma {:induction false} ScanLength(htab: seq<seq<nat>>)
    ensures |Scan(htab)| == Lengths(htab)
  {
    if htab != [] {
      ScanLength(htab[..|htab| - 1]);
    }
  }

  lemma {:induction false} ScanMember(htab: seq<seq<nat>>, d: nat)
    ensures d in Scan(htab) <==> exists h :: 0 <= h < |htab| && d in htab[h]
  {
    if htab != [] {
      var n := |htab| - 1;
      ScanMember(htab[..n], d);
      assert forall h :: 0 <= h < n ==> htab[..n][h] == htab[h];
    }
  }

  lemma {:induction false} ScanBelow(htab: seq<seq<nat>>, n: nat)
    requires forall h :: 0 <= h < |htab| ==> Below(htab[h], n)
    ensures Below(Scan(htab), n)
  {
    if htab != [] {
      ScanBelow(htab[..|htab| - 1], n);
    }
  }

  /** Entry k of the list was used before entry j, or at the same time and comes after it. */
  ghost predicate Yields(dirs: seq<Dir>, list: seq<nat>, k: nat, j: nat)
    requires Below(list, |dirs|) && k < |list| && j < |list|
  {
    dirs[list[k]].last < dirs[list[j]].last || (dirs[list[k]].last == dirs[list[j]].last && j < k)
  }

  /** A directory is chosen exactly when it yields to every other listed one. */
  lemma {:induction false} LruExactly(dirs: seq<Dir>, list: seq<nat>, k: nat)
    requires Below(list, |dirs|) && Distinct(list) && k < |list|
    ensures Lru(dirs, list) == Some(list[k]) <==> forall j :: 0 <= j < |list| && j != k ==> Yields(dirs, list, k, j)
    decreases |list|
  {
    var n := |list| - 1;
    var front := list[..n];
    if n > 0 {
      if k < n {
        LruExactly(dirs, front, k);
        assert forall j :: 0 <= j < n ==> Yields(dirs, front, k, j) == Yields(dirs, list, k, j);
        assert list[n] != list[k] && front[k] == list[k];
        assert Yields(dirs, list, k, n) <==> dirs[list[k]].last < dirs[list[n]].last;
        assert Lru(dirs, list) == Some(list[k]) <==> Lru(dirs, front) == Some(list[k]) && Yields(dirs, list, k, n);
      } else {
        LruLast(dirs, list);
      }
    }
  }

  lemma LruLast(dirs: seq<Dir>, list: seq<nat>)
    requires Below(list, |dirs|) && Distinct(list) && |list| > 1
    ensures var n := |list| - 1;
            Lru(dirs, list) == Some(list[n]) <==> forall j :: 0 <= j < n ==> Yields(dirs, list, n, j)
  {
    var n := |list| - 1;
    var front := list[..n];
    LruLeast(dirs, front);
    var v := Lru(dirs, front).value;
    var i :| 0 <= i < n && front[i] == v;
    assert list[i] == v && v != list[n];
    assert Lru(dirs, list) == Some(list[n]) <==> Yields(dirs, list, n, i);
    hide Lru;
    assert forall j :: 0 <= j < n ==> list[j] == front[j];
  }

  lemma {:induction false} LruLeast(dirs: seq<Dir>, list: seq<nat>)
    requires Below(list, |dirs|) && list != []
    ensures forall j :: 0 <= j < |list| ==> dirs[Lru(dirs, list).value].last <= dirs[list[j]].last
    decreases |list|
  {
    var n := |list| - 1;
    if n > 0 {
      LruLeast(dirs, list[..n]);
      assert forall j :: 0 <= j < n ==> list[..n][j] == list[j];
    }
  }

  ghost predicate Chained(dirs: seq<Dir>, htab: seq<seq<nat>>) {
    forall h :: 0 <= h < |htab| ==>
                  Distinct(htab[h]) && forall d :: d in htab[h] ==> d < |dirs| && Hash(dirs[d].laddr) == h
  }

  /** The scan meets each directory of the hash table once. */
  lemma {:induction false} ScanDistinct(dirs: seq<Dir>, htab: seq<seq<nat>>)
    requires Chained(dirs, htab)
    ensures Distinct(Scan(htab))
  {
    hide Hash;
    if htab != [] {
      var n := |htab| - 1;
      ScanDistinct(dirs, htab[..n]);
      var front := Scan(htab[..n]);
      forall i, j | 0 <= i < |front| && 0 <= j < |htab[n]|
        ensures front[i] != htab[n][j]
      {
        ScanMember(htab[..n], front[i]);
        assert htab[n][j] in htab[n] && front[i] in front;
      }
    }
  }

  /** Directories in use are the ones scanned. */
  lemma ScanUse(w: World, c: Cache, loose: Option<nat>)
    requires InvBut(w, c, loose)
    ensures Distinct(Scan(c.htab)) && Below(Scan(c.htab), NR_DIRS)
    ensures forall h :: 0 <= h < HASHSIZE ==> Below(c.htab[h], NR_DIRS)
    ensures forall d: nat :: d in Scan(c.htab) <==> InUse(c, d)
  {
    hide DirOk, TabOk, FreeOk, Scan, Hash, Distinct;
    ScanDistinct(c.dirs, c.htab);
    forall h | 0 <= h < HASHSIZE
      ensures Below(c.htab[h], NR_DIRS)
    {
      assert forall j :: 0 <= j < |c.htab[h]| ==> c.htab[h][j] in c.htab[h];
    }
    ScanBelow(c.htab, NR_DIRS);
    forall d: nat
      ensures d in Scan(c.htab) <==> InUse(c, d)
    {
      ScanMember(c.htab, d);
    }
  }

  /** Directories in use are out of the free list, so the free list is never longer than the
      frames, and shorter while one is in use. */
  lemma FreeRoom(w: World, c: Cache, d: nat)
    requires Inv(w, c) && InUse(c, d)
    ensures |c.freeDirs| < NR_DIRS
  {
    hide TabOk, HashOk, InUse, EntryOk, UpTo, Distinct;
    UseFacts(w, c, d);
    assert DirOk(w, c, d);
    DistinctCons(d, c.freeDirs);
    DistinctSize([d] + c.freeDirs, UpTo(NR_DIRS));
  }

  lemma DistinctCons(d: nat, s: seq<nat>)
    requires Distinct(s) && d !in s
    ensures Distinct([d] + s)
  {
  }

  ghost function UpTo(n: nat): (all: set<nat>)
    ensures |all| == n && forall x: nat :: x in all <==> x < n
  {
    if n == 0 then {} else UpTo(n - 1) + {n - 1}
  }

  // ---------------------------------------------------------------------------------------------
  // What the current directory sees of everyone else's work

  ghost predicate SameEntry(c: Cache, r: Cache, d: nat, j: nat)
    requires Sizes(c) && Sizes(r) && d < NR_DIRS && j < NR_ENTRIES
  {
    r.dirs[d].pgt[j] == c.dirs[d].pgt[j] && r.dirs[d].hv[j] == c.dirs[d].hv[j]
  }

  ghost predicate LostTable(c: Cache, r: Cache, d: nat, j: nat)
    requires Sizes(c) && Sizes(r) && d < NR_DIRS && j < NR_ENTRIES
  {
    c.dirs[d].pgt[j].Some? && r.dirs[d].pgt[j].None? && r.dirs[d].hv[j] == 0
  }

  /** Between c and r directory d stays in use with its guest directory; apart from entry `but`
      its entries and the tables behind them are as they were, or, if `stolen`, a table behind
      one may have been reclaimed and the entry blanked. */
  ghost predicate Spared(c: Cache, d: nat, but: nat, r: Cache, stolen: bool) {
    && Sizes(c) && Sizes(r) && d < NR_DIRS && InUse(c, d) && InUse(r, d)
    && r.dirs[d].laddr == c.dirs[d].laddr && r.dirs[d].page == c.dirs[d].page && r.dirs[d].last == c.dirs[d].last
    && (forall j :: 0 <= j < NR_ENTRIES && j != but ==> SameEntry(c, r, d, j) || (stolen && LostTable(c, r, d, j)))
    && (forall t :: 0 <= t < NR_TABS && r.tabs[t].pgd == Some(d) && r.tabs[t].pdi != but ==> r.tabs[t] == c.tabs[t])
  }

  lemma SparedStart(c: Cache, d: nat, but: nat)
    requires Sizes(c) && InUse(c, d)
    ensures Spared(c, d, but, c, false)
  {
  }

  lemma SparedThen(a: Cache, b: Cache, c: Cache, d: nat, but: nat, s: bool, u: bool)
    requires Spared(a, d, but, b, s) && Spared(b, d, but, c, u)
    ensures Spared(a, d, but, c, s || u)
  {
    hide InUse;
    forall j | 0 <= j < NR_ENTRIES && j != but
      ensures SameEntry(a, c, d, j) || ((s || u) && LostTable(a, c, d, j))
    {
      assert SameEntry(a, b, d, j) || (s && LostTable(a, b, d, j));
      assert SameEntry(b, c, d, j) || (u && LostTable(b, c, d, j));
    }
  }

  lemma SparedLess(c: Cache, d: nat, r: Cache, stolen: bool, but: nat)
    requires Spared(c, d, NR_ENTRIES, r, stolen)
    requires forall t :: 0 <= t < NR_TABS && r.tabs[t].pgd == Some(d) ==> r.tabs[t].pdi < NR_ENTRIES
    ensures Spared(c, d, but, r, stolen)
  {
  }

  lemma SparedByDirFreed(w: World, c: Cache, e: nat, r: Cache, d: nat)
    requires DirFreed(w, c, e, r) && d < NR_DIRS && InUse(c, d) && d != e
    ensures Spared(c, d, NR_ENTRIES, r, false)
  {
    hide FreeOk, HashOk, Hash, InUse, PointsTo;
    assert r.dirs[d] == c.dirs[d];
    assert forall j :: 0 <= j < NR_ENTRIES ==> SameEntry(c, r, d, j);
    forall t | 0 <= t < NR_TABS && r.tabs[t].pgd == Some(d)
      ensures r.tabs[t] == c.tabs[t]
    {
      assert TabOk(w, r, t) && DirOk(w, c, d) && EntryOk(w, c, d, r.tabs[t].pdi);
    }
  }

  lemma SparedByFreeTab(w: World, c: Cache, t: nat, d: nat, but: nat)
    requires Inv(w, c) && Linked(w, c, t) && d < NR_DIRS && InUse(c, d)
    requires c.tabs[t].pgd == Some(d) ==> but == NR_ENTRIES || but == c.tabs[t].pdi
    ensures Spared(c, d, but, FreeTab(c, t), c.tabs[t].pgd == Some(d) && but == NR_ENTRIES)
  {
  }

  // ---------------------------------------------------------------------------------------------
  // Writing entries, allocating and linking

  /** pgc_set_pte on a directory. */
  ghost function SetPde(c: Cache, d: nat, i: nat, e: Entry): Cache
    requires Sizes(c) && d < NR_DIRS && i < NR_ENTRIES
  {
    c.(dirs := c.dirs[d := c.dirs[d].(hv := c.dirs[d].hv[i := e])])
  }

  lemma SetPdeDir(w: World, c: Cache, d: nat, i: nat, e: Entry, x: nat)
    requires Inv(w, c) && d < NR_DIRS && InUse(c, d) && i < NR_ENTRIES && c.dirs[d].pgt[i].None? && x < NR_DIRS
    requires i < NR_LPAR_PGTABS ==> !Present(e) || Large(e)
    ensures DirOk(w, SetPde(c, d, i, e), x)
  {
    hide FreeOk, HashOk, TabOk, Hash, PointsTo, Present, Large;
    var r := SetPde(c, d, i, e);
    UseFrame(c, r);
    assert DirOk(w, c, x) && DirOk(w, c, d);
    forall j | 0 <= j < NR_ENTRIES
      ensures EntryOk(w, r, x, j)
    {
      assert EntryOk(w, c, x, j);
    }
  }

  lemma SetPdeKeeps(w: World, c: Cache, d: nat, i: nat, e: Entry)
    requires Inv(w, c) && d < NR_DIRS && InUse(c, d) && i < NR_ENTRIES && c.dirs[d].pgt[i].None?
    requires i < NR_LPAR_PGTABS ==> !Present(e) || Large(e)
    ensures Inv(w, SetPde(c, d, i, e)) && Spared(c, d, i, SetPde(c, d, i, e), false)
  {
    hide DirOk, HashOk, Hash, Present, Large;
    var r := SetPde(c, d, i, e);
    UseFrame(c, r);
    forall x | 0 <= x < NR_DIRS
      ensures DirOk(w, r, x)
    {
      SetPdeDir(w, c, d, i, e, x);
    }
    assert forall t :: 0 <= t < NR_TABS ==> TabOk(w, c, t);
    assert forall j :: 0 <= j < NR_ENTRIES && j != i ==> SameEntry(c, r, d, j);
  }

  lemma TailDistinct(s: seq<nat>)
    requires Distinct(s) && s != []
    ensures Distinct(s[1..]) && forall x :: x in s[1..] <==> x in s && x != s[0]
  {
  }

  /** pgc_alloc for a page table, once the free list has a frame. */
  ghost function TakeTab(c: Cache, laddr: Entry, page: Option<Entry>): Cache
    requires Sizes(c) && c.freeTabs != [] && c.freeTabs[0] < NR_TABS && c.tabCount > 0
  {
    var t := c.freeTabs[0];
    c.(tabs := c.tabs[t := c.tabs[t].(laddr := laddr, page := page, hv := ZeroPage())],
       freeTabs := c.freeTabs[1..],
       tabCount := c.tabCount - 1)
  }

  lemma TakeTabFree(w: World, c: Cache, laddr: Entry, page: Option<Entry>)
    requires Inv(w, c) && c.freeTabs != []
    ensures c.freeTabs[0] < NR_TABS && c.tabCount > 0
    ensures var r := TakeTab(c, laddr, page);
            FreeOk(r) && forall t :: t in r.freeTabs <==> t in c.freeTabs && t != c.freeTabs[0]
  {
    hide DirOk, TabOk, HashOk;
    assert c.freeTabs[0] in c.freeTabs;
    TailDistinct(c.freeTabs);
  }

  lemma TakeTabKeeps(w: World, c: Cache, laddr: Entry, page: Option<Entry>)
    requires Inv(w, c) && c.freeTabs != []
    ensures c.freeTabs[0] < NR_TABS && c.tabCount > 0
    ensures var r := TakeTab(c, laddr, page); InvBut(w, r, Some(c.freeTabs[0]))
  {
    TakeTabFree(w, c, laddr, page);
    hide FreeOk, Hash, PointsTo;
    var t, r := c.freeTabs[0], TakeTab(c, laddr, page);
    UseFrame(c, r);
    assert t in c.freeTabs;
    assert TabOk(w, c, t) && c.tabs[t].pgd.None?;
    forall d | 0 <= d < NR_DIRS
      ensures DirOk(w, r, d)
    {
      assert DirOk(w, c, d);
      forall j | 0 <= j < NR_ENTRIES
        ensures EntryOk(w, r, d, j)
      {
        assert EntryOk(w, c, d, j);
      }
    }
    assert forall u :: 0 <= u < NR_TABS && u != t ==> TabOk(w, c, u);
  }

  lemma SparedByTakeTab(w: World, c: Cache, laddr: Entry, page: Option<Entry>, d: nat)
    requires Inv(w, c) && c.freeTabs != [] && d < NR_DIRS && InUse(c, d)
    ensures c.freeTabs[0] < NR_TABS && c.tabCount > 0
    ensures Spared(c, d, NR_ENTRIES, TakeTab(c, laddr, page), false)
  {
    TakeTabFree(w, c, laddr, page);
    hide FreeOk, HashOk, DirOk, Hash;
    var t, r := c.freeTabs[0], TakeTab(c, laddr, page);
    assert t in c.freeTabs && TabOk(w, c, t);
    UseFrame(c, r);
    assert forall j :: 0 <= j < NR_ENTRIES ==> SameEntry(c, r, d, j);
  }

  /** pgc_set_pgtab. */
  ghost function Link(w: World, c: Cache, d: nat, i: nat, t: nat, flags: Entry): Cache
    requires Sizes(c) && d < NR_DIRS && i < NR_ENTRIES && t < NR_TABS && |w.paddr| == NR_TABS
  {
    c.(dirs := c.dirs[d := c.dirs[d].(hv := c.dirs[d].hv[i := Compose(w.paddr[t], flags)],
                                      pgt := c.dirs[d].pgt[i := Some(t)])],
       tabs := c.tabs[t := c.tabs[t].(pdi := i, pgd := Some(d))])
  }

  /** What a caller of pgc_set_pgtab may pass: a fresh frame with a guest page, a place without a
      table, and the flags of a present entry for a small page table. */
  ghost predicate Linkable(w: World, c: Cache, d: nat, i: nat, t: nat, flags: Entry) {
    && InvBut(w, c, Some(t)) && d < NR_DIRS && InUse(c, d) && i < NR_LPAR_PGTABS && c.dirs[d].pgt[i].None?
    && c.tabs[t].page == w.l2p(c.tabs[t].laddr) && c.tabs[t].page.Some?
    && Flags(flags) == flags && Present(flags) && !Large(flags)
  }

  lemma LinkPoints(w: World, t: nat, flags: Entry)
    requires WorldOk(w) && t < NR_TABS && Flags(flags) == flags && Present(flags) && !Large(flags)
    ensures PointsTo(w, Compose(w.paddr[t], flags), t)
  {
    hide Present, Large, PageAddr, Flags, Compose;
    FlagsApart(w.paddr[t], flags);
  }

  lemma LinkDir(w: World, c: Cache, d: nat, i: nat, t: nat, flags: Entry, x: nat)
    requires Linkable(w, c, d, i, t, flags) && x < NR_DIRS
    ensures DirOk(w, Link(w, c, d, i, t, flags), x)
  {
    hide FreeOk, HashOk, Hash, Present, Large, PageAddr, Flags, PointsTo, Compose;
    LinkPoints(w, t, flags);
    var r := Link(w, c, d, i, t, flags);
    UseFrame(c, r);
    assert DirOk(w, c, x) && DirOk(w, c, d);
    forall j | 0 <= j < NR_ENTRIES
      ensures EntryOk(w, r, x, j)
    {
      assert EntryOk(w, c, x, j);
    }
  }

  lemma LinkTab(w: World, c: Cache, d: nat, i: nat, t: nat, flags: Entry, u: nat)
    requires Linkable(w, c, d, i, t, flags) && u < NR_TABS
    ensures TabOk(w, Link(w, c, d, i, t, flags), u)
  {
    hide FreeOk, HashOk, Hash, Present, Large, PageAddr, Flags, DirOk, Compose;
    UseFrame(c, Link(w, c, d, i, t, flags));
    assert u != t ==> TabOk(w, c, u);
  }

  lemma LinkKeeps(w: World, c: Cache, d: nat, i: nat, t: nat, flags: Entry)
    requires Linkable(w, c, d, i, t, flags)
    ensures Inv(w, Link(w, c, d, i, t, flags)) && Spared(c, d, i, Link(w, c, d, i, t, flags), false)
  {
    hide DirOk, TabOk, HashOk, Hash, Present, Large, PageAddr, Flags, Compose;
    var r := Link(w, c, d, i, t, flags);
    UseFrame(c, r);
    forall x | 0 <= x < NR_DIRS
      ensures DirOk(w, r, x)
    {
      LinkDir(w, c, d, i, t, flags, x);
    }
    forall u | 0 <= u < NR_TABS
      ensures TabOk(w, r, u)
    {
      LinkTab(w, c, d, i, t, flags, u);
    }
    assert forall j :: 0 <= j < NR_ENTRIES && j != i ==> SameEntry(c, r, d, j);
  }

  /** Filling the shadow of a linked table. */
  ghost function FillTab(c: Cache, t: nat, hv: Table): Cache
    requires Sizes(c) && t < NR_TABS
  {
    c.(tabs := c.tabs[t := c.tabs[t].(hv := hv)])
  }

  lemma FillTabDir(w: World, c: Cache, t: nat, hv: Table, d: nat)
    requires Inv(w, c) && t < NR_TABS && d < NR_DIRS
    ensures DirOk(w, FillTab(c, t, hv), d)
  {
    hide Hash, PointsTo, TabOk, FreeOk, HashOk;
    var r := FillTab(c, t, hv);
    UseFrame(c, r);
    assert DirOk(w, c, d);
    forall j | 0 <= j < NR_ENTRIES
      ensures EntryOk(w, r, d, j)
    {
      assert EntryOk(w, c, d, j);
    }
  }

  lemma FillTabKeeps(w: World, c: Cache, t: nat, hv: Table)
    requires Inv(w, c) && Linked(w, c, t)
    ensures Inv(w, FillTab(c, t, hv))
    ensures var d := c.tabs[t].pgd.value; d < NR_DIRS && Spared(c, d, c.tabs[t].pdi, FillTab(c, t, hv), false)
  {
    hide Hash, DirOk, HashOk, Spared;
    var r := FillTab(c, t, hv);
    UseFrame(c, r);
    forall d | 0 <= d < NR_DIRS
      ensures DirOk(w, r, d)
    {
      FillTabDir(w, c, t, hv, d);
    }
    assert forall u :: 0 <= u < NR_TABS ==> TabOk(w, c, u);
    FillTabSpares(w, c, t, hv);
  }

  lemma FillTabSpares(w: World, c: Cache, t: nat, hv: Table)
    requires Inv(w, c) && Linked(w, c, t)
    ensures var d := c.tabs[t].pgd.value; d < NR_DIRS && Spared(c, d, c.tabs[t].pdi, FillTab(c, t, hv), false)
  {
    hide InvBut, Hash;
    var r, d := FillTab(c, t, hv), c.tabs[t].pgd.value;
    UseFrame(c, r);
    hide InUse;
    assert forall j :: 0 <= j < NR_ENTRIES ==> SameEntry(c, r, d, j);
  }

  /** pgc_alloc for a directory, once the free list has a frame. */
  ghost function TakeDir(c: Cache, laddr: Entry, page: Option<Entry>, ticks: nat): Cache
    requires Sizes(c) && c.freeDirs != [] && c.freeDirs[0] < NR_DIRS && c.dirCount > 0
  {
    var d, h := c.freeDirs[0], Hash(laddr);
    c.(dirs := c.dirs[d := c.dirs[d].(laddr := laddr, page := page, hv := ZeroPage(), last := ticks)],
       freeDirs := c.freeDirs[1..],
       dirCount := c.dirCount - 1,
       htab := c.htab[h := [d] + c.htab[h]])
  }

  lemma TakeDirUse(w: World, c: Cache, laddr: Entry, page: Option<Entry>, ticks: nat)
    requires Inv(w, c) && c.freeDirs != []
    ensures c.freeDirs[0] < NR_DIRS && c.dirCount > 0
    ensures var r := TakeDir(c, laddr, page, ticks);
            && FreeOk(r) && HashOk(r) && (forall d :: d in r.freeDirs <==> d in c.freeDirs && d != c.freeDirs[0])
            && (forall d: nat :: InUse(r, d) <==> InUse(c, d) || d == c.freeDirs[0])
  {
    hide TabOk, Hash;
    var d := c.freeDirs[0];
    assert d in c.freeDirs && DirOk(w, c, d);
    TailDistinct(c.freeDirs);
    assert forall h :: 0 <= h < HASHSIZE ==> d !in c.htab[h];
  }

  lemma TakeDirKeeps(w: World, c: Cache, laddr: Entry, page: Option<Entry>, ticks: nat)
    requires Inv(w, c) && c.freeDirs != []
    ensures c.freeDirs[0] < NR_DIRS && c.dirCount > 0
    ensures Inv(w, TakeDir(c, laddr, page, ticks)) && InUse(TakeDir(c, laddr, page, ticks), c.freeDirs[0])
  {
    TakeDirUse(w, c, laddr, page, ticks);
    hide FreeOk, HashOk, InUse, Hash, PointsTo;
    var d, r := c.freeDirs[0], TakeDir(c, laddr, page, ticks);
    assert d in c.freeDirs && DirOk(w, c, d);
    forall x | 0 <= x < NR_DIRS
      ensures DirOk(w, r, x)
    {
      assert DirOk(w, c, x);
      forall j | 0 <= j < NR_ENTRIES
        ensures EntryOk(w, r, x, j)
      {
        assert EntryOk(w, c, x, j);
      }
    }
    assert forall u :: 0 <= u < NR_TABS ==> TabOk(w, c, u);
  }

  lemma SparedByTakeDir(w: World, c: Cache, laddr: Entry, page: Option<Entry>, ticks: nat, d: nat)
    requires Inv(w, c) && c.freeDirs != [] && d < NR_DIRS && InUse(c, d)
    ensures c.freeDirs[0] < NR_DIRS && c.dirCount > 0
    ensures Spared(c, d, NR_ENTRIES, TakeDir(c, laddr, page, ticks), false)
  {
    TakeDirUse(w, c, laddr, page, ticks);
    hide FreeOk, HashOk, TabOk, Hash, InUse;
    var r := TakeDir(c, laddr, page, ticks);
    assert c.freeDirs[0] in c.freeDirs && DirOk(w, c, d);
    assert forall j :: 0 <= j < NR_ENTRIES ==> SameEntry(c, r, d, j);
  }

  // ---------------------------------------------------------------------------------------------
  // Reclamation

  /** r comes from c by reclaiming frames: directory d, if any, is spared, what is in use was, and
      every directory freed, other than the flushed one, was used no later than any left. */
  ghost predicate Reclaimed(c: Cache, d: Option<nat>, r: Cache, flushed: Option<nat>, stolen: bool) {
    && Sizes(c) && Sizes(r) && (d.Some? ==> Spared(c, d.value, NR_ENTRIES, r, stolen))
    && (forall e: nat :: InUse(r, e) ==> InUse(c, e) && e < NR_DIRS && r.dirs[e].last == c.dirs[e].last)
    && (forall e: nat, f: nat :: InUse(c, e) && !InUse(r, e) && Some(e) != flushed && InUse(r, f) ==>
                                   e < NR_DIRS && f < NR_DIRS && c.dirs[e].last <= c.dirs[f].last)
    && |c.freeDirs| <= |r.freeDirs|
  }

  /** e is used no later than any other directory. */
  ghost predicate Oldest(c: Cache, e: nat)
    requires Sizes(c)
  {
    e < NR_DIRS && forall f: nat :: InUse(c, f) ==> f < NR_DIRS && c.dirs[e].last <= c.dirs[f].last
  }

  lemma ReclaimStart(c: Cache, d: Option<nat>, flushed: Option<nat>)
    requires Sizes(c) && (d.Some? ==> InUse(c, d.value))
    ensures Reclaimed(c, d, c, flushed, false)
  {
  }

  lemma ReclaimMore(w: World, c: Cache, d: Option<nat>, r: Cache, e: nat, q: Cache, flushed: Option<nat>)
    requires Reclaimed(c, d, r, flushed, false) && DirFreed(w, r, e, q) && Sizes(c) && Some(e) != d && e < NR_DIRS
    requires d.Some? ==> InUse(r, d.value)
    requires Some(e) == flushed || Oldest(r, e)
    ensures Reclaimed(c, d, q, flushed, false)
  {
    hide InvBut, InUse, Spared, Hash;
    if d.Some? {
      UseFacts(w, r, d.value);
      SparedByDirFreed(w, r, e, q, d.value);
      SparedThen(c, r, q, d.value, NR_ENTRIES, false, false);
    }
    forall x: nat, f: nat | InUse(c, x) && !InUse(q, x) && Some(x) != flushed && InUse(q, f)
      ensures x < NR_DIRS && f < NR_DIRS && c.dirs[x].last <= c.dirs[f].last
    {
      assert InUse(r, f);
      assert InUse(r, x) ==> x == e;
    }
  }

  lemma UseFacts(w: World, c: Cache, d: nat)
    requires Inv(w, c) && InUse(c, d)
    ensures d < NR_DIRS && Sizes(c) && HashOk(c)
  {
  }

  lemma ReclaimTab(w: World, c: Cache, d: nat, r: Cache, flushed: Option<nat>, t: nat)
    requires Reclaimed(c, Some(d), r, flushed, false) && Inv(w, r) && Linked(w, r, t) && d < NR_DIRS
    ensures Reclaimed(c, Some(d), FreeTab(r, t), flushed, r.tabs[t].pgd == Some(d))
  {
    hide InvBut, InUse, SameEntry, LostTable, Hash;
    SparedByFreeTab(w, r, t, d, NR_ENTRIES);
    var q := FreeTab(r, t);
    SparedThen(c, r, q, d, NR_ENTRIES, false, r.tabs[t].pgd == Some(d));
    hide Spared;
    UseFrame(r, q);
  }

  lemma LruOldest(w: World, c: Cache)
    requires Inv(w, c) && exists d: nat :: InUse(c, d)
    ensures Below(Scan(c.htab), NR_DIRS)
    ensures var v := Lru(c.dirs, Scan(c.htab)); v.Some? && InUse(c, v.value) && Oldest(c, v.value)
  {
    ScanUse(w, c, None);
    hide InvBut, Distinct, Hash, Scan, InUse;
    assert Scan(c.htab) != [];
    LruLeast(c.dirs, Scan(c.htab));
    forall f: nat | InUse(c, f)
      ensures f < NR_DIRS && c.dirs[Lru(c.dirs, Scan(c.htab)).value].last <= c.dirs[f].last
    {
      var k :| 0 <= k < |Scan(c.htab)| && Scan(c.htab)[k] == f;
    }
  }
}
