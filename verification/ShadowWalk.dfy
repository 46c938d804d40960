/** What the shadow tables mean: the entry pgc_set_pte writes for a guest entry, the two-level
    walks of guest and shadow tables, and their agreement. */
module ShadowWalk {
  import opened Lists
  import opened Pte
  import opened PgCache

  predicate IsaSpace(a: Entry) { a >= 0x0A_0000 && a < 0x10_0000 }

  /** pgc_set_pte: the shadow entry for guest entry e, and whether e was acceptable. */
  function Shadow(w: World, e: Entry): (Entry, bool) {
    var laddr := PageAddr(e);
    if !Present(e) then (0, true)
    else
      match w.l2p(laddr)
      case None => if w.ioprivilege && laddr >= w.maxPhys then (e, true) else (0, false)
      case Some(p) =>
        if w.ioprivilege && IsaSpace(laddr) then (e, true)
        else
          var pte := Compose(p, Flags(e));
          (if Dirty(pte) then pte else ReadOnly(pte), true)
  }

  /** An address the I/O partition uses untranslated: ISA space, or where there is no memory. */
  ghost predicate Verbatim(w: World, laddr: Entry) {
    w.ioprivilege && if w.l2p(laddr).Some? then IsaSpace(laddr) else laddr >= w.maxPhys
  }

  /** Where the partition's logical page lies. */
  ghost function Place(w: World, laddr: Entry): Option<Entry> {
    if Verbatim(w, laddr) then Some(laddr) else w.l2p(laddr)
  }

  /** Translation takes pages to pages. */
  ghost predicate PageToPage(w: World) {
    forall a :: PageAddr(a) == a && w.l2p(a).Some? ==> PageAddr(w.l2p(a).value) == w.l2p(a).value
  }

  /** What an entry s that stands for guest entry g must be: it maps the place of g's page with g's
      flags, write permission withheld until the guest's page is dirty; the entry itself where the
      address is untranslated. */
  ghost predicate Mirrors(w: World, g: Entry, s: Entry) {
    && Place(w, PageAddr(g)) == Some(PageAddr(s)) && Rest(s) == Rest(g)
    && (Writable(s) <==> Writable(g) && (Dirty(g) || Verbatim(w, PageAddr(g))))
    && (Verbatim(w, PageAddr(g)) ==> s == g)
  }

  /** Only one entry stands for a guest entry. */
  lemma MirrorUnique(w: World, g: Entry, s: Entry, t: Entry)
    requires Mirrors(w, g, s) && Mirrors(w, g, t)
    ensures s == t
  {
    hide PageAddr, Rest, Writable, Dirty, Place, Verbatim;
    EntryParts(s, t);
  }

  /** The shadow entry is present exactly when the guest entry is and its page has a place, and then
      is the one that stands for it. */
  lemma ShadowFaithful(w: World, e: Entry)
    requires PageToPage(w)
    ensures var (s, ok) := Shadow(w, e);
            && (Present(s) <==> Present(e) && Place(w, PageAddr(e)).Some?)
            && (!Present(s) ==> s == 0)
            && (ok <==> Present(e) ==> Place(w, PageAddr(e)).Some?)
            && (Present(s) ==> Mirrors(w, e, s) && Large(s) == Large(e))
  {
    PageAddrTwice(e);
    ZeroAbsent();
    if Present(e) && w.l2p(PageAddr(e)).Some? {
      ComposeFaithful(w.l2p(PageAddr(e)).value, e);
    }
    hide Present, PageAddr, Large, Writable, Dirty, Compose, ReadOnly, Flags, Rest, IsaSpace;
  }

  lemma ShadowZero(w: World)
    ensures !Present(0) && Shadow(w, 0) == (0, true)
  {
  }

  /** Word i of a guest page; a frame never given one has its own page of zeroes. */
  function GuestWord(w: World, page: Option<Entry>, i: nat): Entry {
    match page case None => 0 case Some(p) => w.guest(p, i)
  }

  predicate SmallTable(e: Entry) { Present(e) && !Large(e) }

  /** The guest's two-level walk: the leaf entry for directory index i and table index k. */
  ghost function GuestWalk(w: World, page: Option<Entry>, i: nat, k: nat): Option<Entry> {
    var pde := GuestWord(w, page, i);
    if !Present(pde) then None
    else if Large(pde) then Some(pde)
    else
      match w.l2p(PageAddr(pde))
      case None => None
      case Some(p) => if Present(w.guest(p, k)) then Some(w.guest(p, k)) else None
  }

  /** The hardware's walk of the shadow tables from directory d, following physical addresses,
      ends in leaf entry e. */
  ghost predicate ShadowMaps(w: World, c: Cache, d: nat, i: nat, k: nat, e: Entry)
    requires WorldOk(w) && Sizes(c) && d < NR_DIRS && i < NR_ENTRIES && k < NR_ENTRIES
  {
    var pde := c.dirs[d].hv[i];
    && Present(pde) && Present(e)
    && if Large(pde) then e == pde
       else exists t :: 0 <= t < NR_TABS && w.paddr[t] == PageAddr(pde) && c.tabs[t].hv[k] == e
  }

  /** A table frame's shadow is the shadow of its guest page, entry by entry. */
  ghost predicate TableAgrees(w: World, tab: Tab) {
    forall k :: 0 <= k < NR_ENTRIES ==> tab.hv[k] == Shadow(w, GuestWord(w, tab.page, k)).0
  }

  /** Directory entry j of d agrees with the guest's. A small page table may be missing if its
      address is bad or frames were `stolen`. */
  ghost predicate EntryAgrees(w: World, c: Cache, d: nat, j: nat, stolen: bool)
    requires Sizes(c) && d < NR_DIRS && j < NR_ENTRIES
  {
    var pde := GuestWord(w, c.dirs[d].page, j);
    match c.dirs[d].pgt[j]
    case Some(t) => SmallTable(pde) && t < NR_TABS && c.tabs[t].laddr == PageAddr(pde) && TableAgrees(w, c.tabs[t])
    case None =>
      if SmallTable(pde) then c.dirs[d].hv[j] == 0 && (stolen || w.l2p(PageAddr(pde)).None?)
      else c.dirs[d].hv[j] == Shadow(w, pde).0
  }

  /** Agreement of an entry survives work on other entries, up to tables stolen. */
  lemma AgreesStill(w: World, c: Cache, d: nat, but: nat, r: Cache, was: bool, stolen: bool, j: nat)
    requires Spared(c, d, but, r, stolen) && Inv(w, r) && j < NR_ENTRIES && j != but && EntryAgrees(w, c, d, j, was)
    ensures EntryAgrees(w, r, d, j, was || stolen)
  {
    hide FreeOk, HashOk, TabOk, InUse, Hash, PointsTo, TableAgrees, Shadow, SmallTable, PageAddr, GuestWord;
    assert DirOk(w, r, d) && EntryOk(w, r, d, j);
    assert SameEntry(c, r, d, j) || (stolen && LostTable(c, r, d, j));
  }

  /** What the shadow maps, the guest maps, and the entry stands for the guest's. */
  lemma ShadowSound(w: World, c: Cache, d: nat, i: nat, k: nat, e: Entry, stolen: bool)
    requires Inv(w, c) && d < NR_DIRS && i < NR_LPAR_PGTABS && k < NR_ENTRIES && PageToPage(w)
    requires EntryAgrees(w, c, d, i, stolen) && ShadowMaps(w, c, d, i, k, e)
    ensures var g := GuestWalk(w, c.dirs[d].page, i, k); g.Some? && Mirrors(w, g.value, e)
  {
    hide FreeOk, HashOk, InUse, Hash, PageToPage, Shadow, Present, Large, PageAddr, Mirrors;
    assert DirOk(w, c, d) && EntryOk(w, c, d, i);
    var pde := GuestWord(w, c.dirs[d].page, i);
    ZeroAbsent();
    ShadowFaithful(w, pde);
    if c.dirs[d].pgt[i].Some? {
      var t := c.dirs[d].pgt[i].value;
      assert TabOk(w, c, t);
      ShadowFaithful(w, GuestWord(w, c.tabs[t].page, k));
    }
  }

  /** The hardware reaches an entry that stands for g. */
  ghost predicate Mapped(w: World, c: Cache, d: nat, i: nat, k: nat, g: Entry)
    requires WorldOk(w) && Sizes(c) && d < NR_DIRS && i < NR_ENTRIES && k < NR_ENTRIES
  {
    exists e :: ShadowMaps(w, c, d, i, k, e) && Mirrors(w, g, e)
  }

  /** With nothing stolen, what the guest maps to a page that has a place, the shadow maps. */
  lemma ShadowComplete(w: World, c: Cache, d: nat, i: nat, k: nat)
    requires Inv(w, c) && d < NR_DIRS && i < NR_LPAR_PGTABS && k < NR_ENTRIES && PageToPage(w)
    requires EntryAgrees(w, c, d, i, false)
    ensures var g := GuestWalk(w, c.dirs[d].page, i, k);
            g.Some? && Place(w, PageAddr(g.value)).Some? ==> Mapped(w, c, d, i, k, g.value)
  {
    hide FreeOk, HashOk, InUse, Hash, PageToPage, Shadow, Present, Large, PageAddr, Place, Mirrors;
    assert DirOk(w, c, d) && EntryOk(w, c, d, i);
    var pde := GuestWord(w, c.dirs[d].page, i);
    ShadowFaithful(w, pde);
    if c.dirs[d].pgt[i].Some? {
      var t := c.dirs[d].pgt[i].value;
      assert TabOk(w, c, t);
      ShadowFaithful(w, GuestWord(w, c.tabs[t].page, k));
    }
  }

  /** Every address the shadow maps, the guest maps, by the entry the shadow's stands for. */
  ghost predicate Sound(w: World, c: Cache, d: nat)
    requires WorldOk(w) && Sizes(c) && d < NR_DIRS
  {
    forall i: nat, k: nat, e :: i < NR_LPAR_PGTABS && k < NR_ENTRIES && ShadowMaps(w, c, d, i, k, e) ==>
                                  var g := GuestWalk(w, c.dirs[d].page, i, k);
                                  g.Some? && Mirrors(w, g.value, e)
  }

  /** Every address the guest maps to a page that has a place, the shadow maps. */
  ghost predicate Complete(w: World, c: Cache, d: nat)
    requires WorldOk(w) && Sizes(c) && d < NR_DIRS
  {
    forall i: nat, k: nat :: i < NR_LPAR_PGTABS && k < NR_ENTRIES ==>
                               var g := GuestWalk(w, c.dirs[d].page, i, k);
                               g.Some? && Place(w, PageAddr(g.value)).Some? ==>
                                 Mapped(w, c, d, i, k, g.value)
  }

  lemma WalksAgree(w: World, c: Cache, d: nat, stolen: bool)
    requires Inv(w, c) && d < NR_DIRS && PageToPage(w)
    requires forall i :: 0 <= i < NR_LPAR_PGTABS ==> EntryAgrees(w, c, d, i, stolen)
    ensures WorldOk(w) && Sizes(c) && Sound(w, c, d) && (!stolen ==> Complete(w, c, d))
  {
    WorldOf(w, c);
    hide InvBut, PageToPage, EntryAgrees, ShadowMaps, GuestWalk, PageAddr, Place, Mirrors, Mapped;
    forall i: nat, k: nat, e | i < NR_LPAR_PGTABS && k < NR_ENTRIES && ShadowMaps(w, c, d, i, k, e)
      ensures var g := GuestWalk(w, c.dirs[d].page, i, k); g.Some? && Mirrors(w, g.value, e)
    {
      ShadowSound(w, c, d, i, k, e, stolen);
    }
    if !stolen {
      forall i: nat, k: nat | i < NR_LPAR_PGTABS && k < NR_ENTRIES
        ensures var g := GuestWalk(w, c.dirs[d].page, i, k);
                g.Some? && Place(w, PageAddr(g.value)).Some? ==> Mapped(w, c, d, i, k, g.value)
      {
        ShadowComplete(w, c, d, i, k);
      }
    }
  }

  lemma WorldOf(w: World, c: Cache)
    requires Inv(w, c)
    ensures WorldOk(w) && Sizes(c)
  {
  }
}
