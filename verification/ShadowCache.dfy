/** The operations of hype/x86/pgcache.c on the cache of PgCache: freeing, reclamation, allocation
    and the prefetch that makes the shadow tables agree with the guest's. */
module ShadowCache {
  import opened Lists
  import opened Pte
  import opened PgCache
  import opened Reclaim
  import opened ShadowWalk

  datatype Kind = PgDir | PgTab

  /** What pgc_alloc comes back with; `Halt` is its failed assertion. */
  datatype Allocated = Frame(index: nat) | BadAddress | Halt

  class PageCache {
    const w: World
    var dirs: seq<Dir>
    var tabs: seq<Tab>
    var freeDirs: seq<nat>
    var freeTabs: seq<nat>
    var dirCount: nat
    var tabCount: nat
    var htab: seq<seq<nat>>
    var cur: Option<nat>              // thread->pgd
    var flushed: Option<nat>          // thread->flushed

    ghost function View(): Cache
      reads this
    {
      Cache(dirs, tabs, freeDirs, freeTabs, dirCount, tabCount, htab)
    }

    /** The thread's directories are in use. */
    ghost predicate ThreadOk()
      requires Sizes(View())
      reads this
    {
      (cur.Some? ==> InUse(View(), cur.value)) && (flushed.Some? ==> InUse(View(), flushed.value))
    }

    ghost predicate Valid()
      reads this
    {
      Inv(w, View()) && ThreadOk()
    }

    /** pgc_init. */
    constructor (world: World)
      requires WorldOk(world)
      ensures Valid() && w == world && cur.None? && flushed.None?
      ensures dirCount == NR_DIRS && tabCount == NR_TABS && forall d: nat :: !InUse(View(), d)
    {
      w := world;
      dirs, tabs, freeDirs, freeTabs := [], [], [], [];
      dirCount, tabCount, htab := NR_DIRS, NR_TABS, seq(HASHSIZE, _ => []);
      cur, flushed := None, None;
      new;
      var i := 0;
      while i < NR_DIRS
        invariant 0 <= i <= NR_DIRS && |dirs| == |freeDirs| == i
        invariant forall d :: 0 <= d < i ==> dirs[d].hv == ZeroPage() && dirs[d].pgt == NoLinks() && freeDirs[d] == d
        invariant tabs == [] && freeTabs == [] && dirCount == NR_DIRS && tabCount == NR_TABS && cur.None?
        invariant flushed.None?
        invariant |htab| == HASHSIZE && forall h :: 0 <= h < HASHSIZE ==> htab[h] == []
      {
        dirs := dirs + [Dir(0, None, ZeroPage(), NoLinks(), 0)];
        freeDirs := freeDirs + [i];
        i := i + 1;
      }
      i := 0;
      while i < NR_TABS
        invariant 0 <= i <= NR_TABS && |tabs| == |freeTabs| == i
        invariant forall t :: 0 <= t < i ==> tabs[t].hv == ZeroPage() && tabs[t].pgd.None? && freeTabs[t] == t
        invariant |dirs| == |freeDirs| == NR_DIRS && dirCount == NR_DIRS && tabCount == NR_TABS && cur.None?
        invariant flushed.None?
        invariant forall d :: 0 <= d < NR_DIRS ==>
                              dirs[d].hv == ZeroPage() && dirs[d].pgt == NoLinks() && freeDirs[d] == d
        invariant |htab| == HASHSIZE && forall h :: 0 <= h < HASHSIZE ==> htab[h] == []
      {
        tabs := tabs + [Tab(0, None, ZeroPage(), None, 0)];
        freeTabs := freeTabs + [i];
        i := i + 1;
      }
      AllFreeInv(w, View());
    }

    /** pgc_free_pgtab. */
    method FreePgtab(t: nat)
      requires Inv(w, View()) && Linked(w, View(), t)
      modifies this
      ensures View() == FreeTab(old(View()), t) && Inv(w, View())
      ensures cur == old(cur) && flushed == old(flushed)
    {
      FreeTabKeeps(w, View(), t, None);
      hide Inv, Hash;
      var d, i := tabs[t].pgd.value, tabs[t].pdi;
      tabs := tabs[t := tabs[t].(pgd := None, hv := ZeroPage())];
      dirs := dirs[d := dirs[d].(pgt := dirs[d].pgt[i := None])];
      dirs := dirs[d := dirs[d].(hv := dirs[d].hv[i := 0])];
      freeTabs, tabCount := [t] + freeTabs, tabCount + 1;
    }

    /** pgc_remove. */
    method Remove(d: nat)
      requires Sizes(View()) && HashOk(View()) && InUse(View(), d)
      modifies `htab
      ensures htab == old(htab[Hash(dirs[d].laddr) := Without(htab[Hash(dirs[d].laddr)], d)])
    {
      hide Hash;
      var h := Hash(dirs[d].laddr);
      var chain := htab[h];
      var k := 0;
      while chain[k] != d
        invariant 0 <= k < |chain| && d !in chain[..k]
        decreases |chain| - k
      {
        assert chain[..k + 1] == chain[..k] + [chain[k]];
        assert chain[..|chain|] == chain;
        k := k + 1;
      }
      WithoutAt(chain, k);
      htab := htab[h := chain[..k] + chain[k + 1..]];
    }

    /** pgc_free_pgdir. */
    method FreePgdir(d: nat)
      requires Inv(w, View()) && InUse(View(), d)
      modifies this
      ensures DirFreed(w, old(View()), d, View())
      ensures cur == old(cur) && flushed == old(flushed)
    {
      hide InvBut, DirFreed, Shed, InUse, Hash, Without;
      ghost var c := View();
      UseFacts(w, c, d);
      StripStarts(w, c, d);
      var i := 0;
      while i < NR_LPAR_PGTABS
        invariant 0 <= i <= NR_LPAR_PGTABS && Sizes(View()) && Stripping(w, c, d, i, View(), None)
        invariant cur == old(cur) && flushed == old(flushed)
      {
        StripNext(w, c, d, i, View(), None);
        var t := dirs[d].pgt[i];
        if t.Some? {
          FreePgtab(t.value);
        }
        i := i + 1;
      }
      StripEnds(w, c, d, View());
      ghost var r := RetireDir(View(), d);
      Remove(d);
      dirs := dirs[d := dirs[d].(hv := ZeroPage())];
      freeDirs, dirCount := [d] + freeDirs, dirCount + 1;
      assert View() == r;
    }

    /** pgc_lookup. */
    method Lookup(laddr: Entry) returns (d: Option<nat>)
      requires Inv(w, View())
      ensures d.Some? ==> InUse(View(), d.value) && dirs[d.value].laddr == laddr
      ensures d.None? ==> forall e: nat :: InUse(View(), e) ==> dirs[e].laddr != laddr
    {
      hide DirOk, TabOk, FreeOk, Hash;
      var chain := htab[Hash(laddr)];
      assert forall j :: 0 <= j < |chain| ==> chain[j] in chain;
      var k := 0;
      while k < |chain|
        invariant 0 <= k <= |chain| && Below(chain, NR_DIRS)
        invariant forall j :: 0 <= j < k ==> dirs[chain[j]].laddr != laddr
      {
        if dirs[chain[k]].laddr == laddr {
          return Some(chain[k]);
        }
        k := k + 1;
      }
      d := None;
    }

    /** One chain of the victim search of pgc_garbage_collect. */
    method ScanChain(chain: seq<nat>, v: Option<nat>, ghost seen: seq<nat>) returns (victim: Option<nat>)
      requires Below(seen, |dirs|) && Below(chain, |dirs|) && v == Lru(dirs, seen)
      ensures Below(seen + chain, |dirs|) && victim == Lru(dirs, seen + chain)
    {
      hide Lru;
      victim := v;
      var k := 0;
      assert seen + chain[..0] == seen;
      while k < |chain|
        invariant 0 <= k <= |chain|
        invariant Below(seen + chain[..k], |dirs|) && victim == Lru(dirs, seen + chain[..k])
      {
        var x := chain[k];
        assert seen + chain[..k + 1] == (seen + chain[..k]) + [x];
        LruMore(dirs, seen + chain[..k], x);
        if victim.None? {
          victim := Some(x);
        } else if dirs[victim.value].last >= dirs[x].last {
          victim := Some(x);
        }
        k := k + 1;
      }
      assert seen + chain[..k] == seen + chain;
    }

    /** The victim search of pgc_garbage_collect. */
    method PickVictim() returns (v: nat)
      requires Inv(w, View()) && exists d: nat :: InUse(View(), d)
      ensures Below(Scan(htab), NR_DIRS) && Lru(dirs, Scan(htab)) == Some(v)
    {
      hide InvBut, Hash, Distinct, InUse, Lru, Below;
      ScanUse(w, View(), None);
      SizesOf(w, View());
      LruNone(dirs);
      var victim: Option<nat> := None;
      var h := 0;
      while h < HASHSIZE
        invariant 0 <= h <= HASHSIZE
        invariant Below(Scan(htab[..h]), NR_DIRS) && victim == Lru(dirs, Scan(htab[..h]))
      {
        victim := ScanChain(htab[h], victim, Scan(htab[..h]));
        assert htab[..h + 1][..h] == htab[..h];
        h := h + 1;
      }
      assert htab[..h] == htab;
      v := victim.value;
    }

    predicate HasFree(kind: Kind)
      reads this
    {
      match kind case PgDir => freeDirs != [] case PgTab => freeTabs != []
    }

    /** The first attempt of pgc_garbage_collect: directories from the least recently used until a
        frame of the kind asked for turns up or the current directory is next. `c` is the cache
        before the collection, from which `but` was freed already. */
    method FreeOldest(kind: Kind, ghost c: Cache, ghost but: Option<nat>) returns (found: bool, ghost gone: seq<nat>)
      requires Valid() && Sizes(View()) && !HasFree(kind) && (flushed.None? || flushed == cur)
      requires Sizes(c) && Reclaimed(c, cur, View(), but, false) && Tracks(c, [], but, View())
      modifies this
      ensures Valid() && Sizes(View()) && cur == old(cur) && flushed == old(flushed)
      ensures Reclaimed(c, cur, View(), but, false) && Tracks(c, gone, but, View()) && (found <==> HasFree(kind))
      ensures Enough(c, kind, gone, found)
      ensures !found ==>
                cur.Some? && InUse(View(), cur.value) && Oldest(View(), cur.value) && NextOf(c, View(), cur.value)
      ensures kind.PgDir? ==> Below(old(Scan(htab)), NR_DIRS) && (found <==> old(Lru(dirs, Scan(htab))) != cur)
      ensures kind.PgDir? && !found ==> View() == old(View())
    {
      hide InvBut, InUse, Hash, Reclaimed, DirFreed, Lru, Scan, Below, Tracks, Bare, Enough, NextOf;
      ghost var start := View();
      gone := [];
      NoneGone(c, kind);
      while true
        invariant Valid() && Sizes(View()) && cur == old(cur) && flushed == old(flushed)
        invariant Reclaimed(c, cur, View(), but, false) && !HasFree(kind)
        invariant Tracks(c, gone, but, View()) && Enough(c, kind, gone, false)
        invariant kind.PgDir? ==> View() == start && gone == []
        decreases NR_DIRS - |freeDirs|
      {
        SomeInUse(w, View(), kind);
        var victim := PickVictim();
        LruOldest(w, View());
        ghost var r := View();
        if Some(victim) == cur {
          VictimNext(w, c, gone, but, r, victim);
          return false, gone;
        }
        FreeRoom(w, r, victim);
        FreePgdir(victim);
        DirFreedFacts(w, r, victim, View());
        ReclaimMore(w, c, cur, r, victim, View(), but);
        TracksMore(w, c, gone, but, r, victim, View());
        EnoughMore(w, c, kind, gone, but, r, victim, View());
        gone := gone + [victim];
        if HasFree(kind) {
          return true, gone;
        }
      }
    }

    /** pgc_garbage_collect: the flushed directory first, then directories from the least recently
        used until a frame of the kind asked for turns up or the current directory is next, then
        the table the clock points at. It fails for a directory frame exactly when there is no
        flushed directory to take and the current one is the victim; without a current directory
        it never fails. `gone` are the directories freed besides the flushed one, and `clocked` says
        whether it came to the clock. */
    method GarbageCollect(kind: Kind, ticks: nat)
      returns (ok: bool, ghost stolen: bool, ghost gone: seq<nat>, ghost clocked: bool)
      requires Valid() && !HasFree(kind)
      modifies this
      ensures Valid() && cur == old(cur)
      ensures ok ==> HasFree(kind)
      ensures Below(old(Scan(htab)), NR_DIRS)
      ensures ok <==> kind.PgTab? || old(flushed.Some? && flushed != cur) || old(Lru(dirs, Scan(htab))) != cur
      ensures !ok ==> View() == old(View()) && flushed == old(flushed)
      ensures Reclaimed(old(View()), cur, View(), old(if flushed != cur then flushed else None), stolen)
      ensures stolen ==> kind.PgTab? && cur.Some? && Oldest(View(), cur.value)
      ensures flushed == if old(flushed) == cur then old(flushed) else None
      ensures FreedInOrder(old(View()), gone, old(if flushed != cur then flushed else None), View())
      ensures Undisturbed(old(View()), View(), if clocked then Some(ticks % NR_TABS) else None)
      ensures if FlushSuffices(old(View()), kind, old(if flushed != cur then flushed else None))
              then gone == [] && !clocked else Enough(old(View()), kind, gone, ok && !clocked)
      ensures clocked ==> kind.PgTab? && cur.Some? && NextOf(old(View()), View(), cur.value)
      ensures stolen <==> clocked && old(tabs)[ticks % NR_TABS].pgd == cur
    {
      hide InvBut, InUse, Hash, Reclaimed, DirFreed, Lru, Scan, FreeTab, Below, Tracks, Bare, Enough, NextOf;
      stolen, gone, clocked := false, [], false;
      ghost var c := View();
      ghost var but := if flushed != cur then flushed else None;
      SizesOf(w, c);
      ScanUse(w, c, None);
      ReclaimStart(c, cur, but);
      TracksStart(c);
      if flushed.Some? && flushed != cur {
        FreePgdir(flushed.value);
        DirFreedFacts(w, c, flushed.value, View());
        ReclaimMore(w, c, cur, c, flushed.value, View(), but);
        TracksFlushed(w, c, flushed.value, View());
        if kind.PgTab? {
          FreesTables(w, c, flushed.value, View());
        }
        flushed := None;
        if HasFree(kind) {
          TracksParts(c, [], but, View());
          return true, false, [], false;
        }
      }
      ok, gone := FreeOldest(kind, c, but);
      TracksParts(c, gone, but, View());
      if ok || kind.PgDir? {
        return;
      }
      var index := ticks % NR_TABS;
      AllLinked(w, View(), index);
      UseFacts(w, View(), cur.value);
      ReclaimTab(w, c, cur.value, View(), but, index);
      UndisturbedTab(w, c, View(), index);
      FreedTab(w, c, gone, but, View(), index);
      NextStill(w, c, View(), cur.value, index);
      ok, stolen, clocked := true, tabs[index].pgd == cur, true;
      ghost var r := View();
      FreePgtab(index);
      FreeTabUse(r, index);
    }

    /** The page a frame is to map: unchanged when no logical address is given. */
    function Mapped(laddr: Entry, before: Option<Entry>): Option<Entry> {
      if laddr == INVALID then before else w.l2p(laddr)
    }

    /** pgc_alloc. A bad logical address, and a directory that cannot be had, leave everything as
        it was. A new table is blank and linked nowhere; a new directory is blank and in the hash. */
    method Alloc(laddr: Entry, kind: Kind, ticks: nat) returns (f: Allocated, ghost stolen: bool)
      requires Valid()
      modifies this
      ensures cur == old(cur) && Sizes(View()) && ThreadOk()
      ensures f.BadAddress? <==> laddr != INVALID && w.l2p(laddr).None?
      ensures Below(old(Scan(htab)), NR_DIRS)
      ensures f.Halt? <==> && !f.BadAddress? && kind.PgDir?
                           && old(freeDirs == [] && (flushed.None? || flushed == cur) && Lru(dirs, Scan(htab)) == cur)
      ensures !f.Frame? ==> View() == old(View()) && flushed == old(flushed)
      ensures f.Frame? && kind.PgDir? ==>
                Inv(w, View()) && InUse(View(), f.index) && dirs[f.index].laddr == laddr && dirs[f.index].last == ticks
                && dirs[f.index].hv == ZeroPage() && dirs[f.index].pgt == NoLinks()
                && (laddr != INVALID ==> dirs[f.index].page == w.l2p(laddr))
      ensures f.Frame? && kind.PgTab? ==>
                InvBut(w, View(), Some(f.index)) && f.index < NR_TABS && tabs[f.index].laddr == laddr
                && (laddr != INVALID ==> tabs[f.index].page == w.l2p(laddr))
      ensures cur.Some? ==> Spared(old(View()), cur.value, NR_ENTRIES, View(), stolen)
      ensures stolen ==> kind.PgTab? && old(freeTabs) == []
      ensures kind.PgTab? ==> |freeTabs| >= old(|freeTabs|) - 1
      ensures old(HasFree(kind)) ==> OthersKept(old(View()), View(), None)
    {
      hide InvBut, InUse, Hash, Reclaimed, Lru, Scan, Spared, Oldest, OthersKept, FreedInOrder, Undisturbed, Enough,
           NextOf;
      stolen := false;
      ghost var c := View();
      SizesOf(w, c);
      OthersStart(c, None);
      ScanUse(w, c, None);
      if cur.Some? {
        SparedStart(c, cur.value, NR_ENTRIES);
      }
      if laddr != INVALID && w.l2p(laddr).None? {
        return BadAddress, false;
      }
      if !HasFree(kind) {
        var ok;
        ghost var gone, clocked;
        ok, stolen, gone, clocked := GarbageCollect(kind, ticks);
        if cur.Some? {
          ReclaimedSpares(c, cur, View(), old(if flushed != cur then flushed else None), stolen);
        }
        if !ok {
          return Halt, false;
        }
      }
      ghost var m := View();
      if kind.PgDir? {
        var d := TakeDirFrame(laddr, ticks);
        f := Frame(d);
      } else {
        var t := TakeTabFrame(laddr);
        f := Frame(t);
      }
      if cur.Some? {
        SparedThen(c, m, View(), cur.value, NR_ENTRIES, stolen, false);
      }
    }

    method TakeDirFrame(laddr: Entry, ticks: nat) returns (d: nat)
      requires Valid() && freeDirs != []
      modifies this
      ensures cur == old(cur) && flushed == old(flushed) && Sizes(View()) && Valid() && InUse(View(), d)
      ensures dirs[d].laddr == laddr && dirs[d].last == ticks && dirs[d].hv == ZeroPage() && dirs[d].pgt == NoLinks()
      ensures laddr != INVALID ==> dirs[d].page == w.l2p(laddr)
      ensures cur.Some? ==> Spared(old(View()), cur.value, NR_ENTRIES, View(), false)
      ensures OthersKept(old(View()), View(), None)
    {
      hide InvBut, InUse, Hash, Spared, OthersKept;
      d := freeDirs[0];
      TakeDirReady(w, View());
      ghost var page := Mapped(laddr, dirs[d].page);
      TakeDirAll(w, View(), laddr, page, ticks);
      OthersTakeDir(w, View(), laddr, page, ticks);
      if cur.Some? {
        UseFacts(w, View(), cur.value);
        SparedByTakeDir(w, View(), laddr, page, ticks, cur.value);
      }
      freeDirs, dirCount := freeDirs[1..], dirCount - 1;
      dirs := dirs[d := dirs[d].(laddr := laddr, page := Mapped(laddr, dirs[d].page), hv := ZeroPage())];
      dirs := dirs[d := dirs[d].(last := ticks)];
      var h := Hash(laddr);
      htab := htab[h := [d] + htab[h]];
      assert View() == TakeDir(old(View()), laddr, page, ticks);
    }

    method TakeTabFrame(laddr: Entry) returns (t: nat)
      requires Valid() && freeTabs != []
      modifies this
      ensures cur == old(cur) && flushed == old(flushed) && Sizes(View()) && ThreadOk()
      ensures freeTabs == old(freeTabs)[1..]
      ensures InvBut(w, View(), Some(t)) && t < NR_TABS && tabs[t].laddr == laddr
      ensures (laddr != INVALID ==> tabs[t].page == w.l2p(laddr))
      ensures cur.Some? ==> Spared(old(View()), cur.value, NR_ENTRIES, View(), false)
      ensures OthersKept(old(View()), View(), None)
    {
      hide Hash, Spared, DirOk, TabOk, FreeOk, HashOk, OthersKept;
      t := freeTabs[0];
      TakeTabFree(w, View(), laddr, None);
      ghost var page := Mapped(laddr, tabs[t].page);
      TakeTabKeeps(w, View(), laddr, page);
      if cur.Some? {
        SparedByTakeTab(w, View(), laddr, page, cur.value);
      }
      UseFrame(View(), TakeTab(View(), laddr, page));
      OthersTakeTab(w, View(), laddr, page);
      hide InvBut, InUse;
      freeTabs, tabCount := freeTabs[1..], tabCount - 1;
      tabs := tabs[t := tabs[t].(laddr := laddr, page := Mapped(laddr, tabs[t].page), hv := ZeroPage())];
      assert View() == TakeTab(old(View()), laddr, page);
    }

    /** pgc_set_pgtab. */
    method SetPgtab(d: nat, i: nat, t: nat, flags: Entry)
      requires Linkable(w, View(), d, i, t, flags) && ThreadOk()
      modifies this
      ensures View() == Link(w, old(View()), d, i, t, flags) && Valid() && Linked(w, View(), t)
      ensures Spared(old(View()), d, i, View(), false)
      ensures cur == old(cur) && flushed == old(flushed)
    {
      LinkKeeps(w, View(), d, i, t, flags);
      UseFrame(View(), Link(w, View(), d, i, t, flags));
      LinkTab(w, View(), d, i, t, flags, t);
      hide InvBut, Spared, Hash, InUse, TabOk, Compose, Present, Large, Flags;
      dirs := dirs[d := dirs[d].(hv := dirs[d].hv[i := Compose(w.paddr[t], flags)])];
      dirs := dirs[d := dirs[d].(pgt := dirs[d].pgt[i := Some(t)])];
      tabs := tabs[t := tabs[t].(pdi := i)];
      tabs := tabs[t := tabs[t].(pgd := Some(d))];
      assert View() == Link(w, old(View()), d, i, t, flags);
    }

    /** pgc_set_pte on a directory; the cache invariant stays unless the entry is for a small page,
        which no caller writes there. */
    method SetDirPte(d: nat, i: nat, entry: Entry)
      requires Valid() && d < NR_DIRS && InUse(View(), d) && i < NR_LPAR_PGTABS && dirs[d].pgt[i].None?
      requires PageToPage(w)
      modifies this
      ensures View() == SetPde(old(View()), d, i, Shadow(w, entry).0)
      ensures !Present(entry) || Large(entry) ==> Valid() && Spared(old(View()), d, i, View(), false)
      ensures cur == old(cur) && flushed == old(flushed)
    {
      hide InvBut, Spared, Hash, InUse, Shadow, Present, Large, PageToPage;
      SizesOf(w, View());
      ghost var r := SetPde(View(), d, i, Shadow(w, entry).0);
      UseFrame(View(), r);
      SetPteKeeps(w, View(), d, i, entry);
      dirs := dirs[d := dirs[d].(hv := dirs[d].hv[i := Shadow(w, entry).0])];
    }

    /** pgc_prefetch_pgtab. */
    method PrefetchPgtab(t: nat) returns (status: bool)
      requires Valid() && Linked(w, View(), t)
      modifies this
      ensures Valid() && cur == old(cur) && flushed == old(flushed)
      ensures View() == FillTab(old(View()), t, tabs[t].hv) && TableAgrees(w, tabs[t])
      ensures var d := old(tabs[t].pgd.value); d < NR_DIRS && Spared(old(View()), d, old(tabs[t].pdi), View(), false)
      ensures status <==> forall k :: 0 <= k < NR_ENTRIES ==> Shadow(w, GuestWord(w, tabs[t].page, k)).1
    {
      hide InvBut, Spared, Hash, InUse, Shadow, TabOk;
      ghost var c := View();
      status := true;
      var i := 0;
      while i < NR_ENTRIES
        invariant 0 <= i <= NR_ENTRIES && |tabs| == NR_TABS
        invariant View() == FillTab(c, t, tabs[t].hv) && cur == old(cur) && flushed == old(flushed)
        invariant forall k :: 0 <= k < i ==> tabs[t].hv[k] == Shadow(w, GuestWord(w, tabs[t].page, k)).0
        invariant status <==> forall k :: 0 <= k < i ==> Shadow(w, GuestWord(w, tabs[t].page, k)).1
      {
        var (pte, ok) := Shadow(w, GuestWord(w, tabs[t].page, i));
        tabs := tabs[t := tabs[t].(hv := tabs[t].hv[i := pte])];
        if !ok {
          status := false;
        }
        i := i + 1;
      }
      FillTabKeeps(w, c, t, tabs[t].hv);
      UseFrame(c, View());
    }

    /** A directory entry gives up its table, if it has one. */
    method DropPgtab(d: nat, i: nat)
      requires Valid() && d < NR_DIRS && InUse(View(), d) && i < NR_LPAR_PGTABS
      modifies this
      ensures Valid() && Sizes(View()) && cur == old(cur) && flushed == old(flushed) && InUse(View(), d)
      ensures dirs[d].pgt[i].None? && Spared(old(View()), d, i, View(), false) && |freeTabs| >= old(|freeTabs|)
      ensures OthersKept(old(View()), View(), Some(d))
    {
      hide InvBut, Hash, InUse, TabOk, SameEntry, LostTable, OthersKept;
      ghost var c := View();
      UseFacts(w, c, d);
      SparedStart(c, d, i);
      OthersStart(c, Some(d));
      if dirs[d].pgt[i].Some? {
        var t := dirs[d].pgt[i].value;
        LinkOf(w, c, d, i);
        OthersFreeTab(w, c, t, d);
        SparedByFreeTab(w, c, t, d, i);
        FreeTabUse(c, t);
        FreePgtab(t);
      }
    }

    /** The last part of an iteration of pgc_prefetch_pgdir: a new table for entry i. */
    method NewPgtab(d: nat, i: nat, pde: Entry, ticks: nat) returns (ok: bool, ghost stolen: bool)
      requires Valid() && cur == Some(d) && d < NR_DIRS && InUse(View(), d) && i < NR_LPAR_PGTABS
      requires dirs[d].pgt[i].None?
      requires PageToPage(w) && SmallTable(pde) && pde == GuestWord(w, dirs[d].page, i)
      modifies this
      ensures Valid() && Sizes(View()) && cur == old(cur) && Spared(old(View()), d, i, View(), stolen)
      ensures EntryAgrees(w, View(), d, i, stolen) && (ok <==> w.l2p(PageAddr(pde)).Some?)
      ensures Fresh(w, View(), d, i)
      ensures |freeTabs| >= old(|freeTabs|) - 1 && (stolen ==> old(freeTabs) == [])
      ensures old(freeTabs) != [] ==> OthersKept(old(View()), View(), Some(d))
    {
      hide InvBut, Spared, Hash, InUse, Shadow, TabOk, Lru, Scan, Below, Present, Large, Flags, PageAddr, TableAgrees,
           PageToPage, GuestWord, OthersKept;
      ghost var c := View();
      var laddr, flags := PageAddr(pde), Flags(pde);
      PageIsValid(pde);
      FlagsTwice(pde);
      FlagsPresent(pde);
      FlagsLarge(pde);
      var pgt;
      pgt, stolen := Alloc(laddr, PgTab, ticks);
      SparedFacts(c, d, NR_ENTRIES, View(), stolen);
      ok := pgt.Frame?;
      ghost var m := View();
      if ok {
        SparedLoose(w, c, d, m, stolen, i, pgt.index);
        FlagsApart(w.paddr[pgt.index], flags);
        SetPgtab(d, i, pgt.index, flags);
        ghost var r := View();
        var _ := PrefetchPgtab(pgt.index);
        SparedThen(m, r, View(), d, i, false, false);
        SparedThen(c, m, View(), d, i, stolen, false);
        OthersLinkFill(w, m, d, i, pgt.index, flags, tabs[pgt.index].hv);
      } else {
        ShadowZero(w);
        SetDirPte(d, i, 0);
        SparedWhole(w, c, d, m, stolen, i);
        SparedThen(c, m, View(), d, i, stolen, false);
        OthersPde(m, d, i, Shadow(w, 0).0);
      }
      if old(freeTabs) != [] {
        OthersThen(c, m, View(), d);
      }
      SparedFacts(c, d, i, View(), stolen);
    }

    /** The first part of an iteration of pgc_prefetch_pgdir: an entry without a small page table. */
    method BarePde(d: nat, i: nat, pde: Entry)
      requires Valid() && cur == Some(d) && d < NR_DIRS && InUse(View(), d) && i < NR_LPAR_PGTABS && PageToPage(w)
      requires !SmallTable(pde) && pde == GuestWord(w, dirs[d].page, i)
      modifies this
      ensures Valid() && Sizes(View()) && cur == old(cur) && Spared(old(View()), d, i, View(), false)
      ensures dirs[d].page == old(dirs[d].page) && |freeTabs| >= old(|freeTabs|)
      ensures EntryAgrees(w, View(), d, i, false) && Flagged(w, old(View()), View(), d, i, false)
      ensures OthersKept(old(View()), View(), cur)
    {
      hide InvBut, Spared, Hash, InUse, Shadow, TabOk, Present, Large, PageAddr, TableAgrees, PageToPage, GuestWord,
           OthersKept, Flagged;
      ghost var c := View();
      SizesOf(w, c);
      DropPgtab(d, i);
      SparedFacts(c, d, i, View(), false);
      ghost var m := View();
      if Present(pde) {
        SetDirPte(d, i, pde);
      } else {
        ShadowZero(w);
        ShadowAbsent(w, pde);
        SetDirPte(d, i, 0);
      }
      SparedThen(c, m, View(), d, i, false, false);
      SparedFacts(c, d, i, View(), false);
      OthersPde(m, d, i, dirs[d].hv[i]);
      OthersThen(c, m, View(), d);
      FlaggedBare(w, c, View(), d, i);
    }

    /** One iteration of pgc_prefetch_pgdir. */
    method PrefetchPde(d: nat, i: nat, ticks: nat) returns (ok: bool, ghost stolen: bool)
      requires Valid() && cur == Some(d) && d < NR_DIRS && i < NR_LPAR_PGTABS && PageToPage(w)
      modifies this
      ensures Valid() && Sizes(View()) && cur == old(cur) && Spared(old(View()), d, i, View(), stolen)
      ensures EntryAgrees(w, View(), d, i, stolen) && Flagged(w, old(View()), View(), d, i, stolen)
      ensures ok <==> TableThere(w, dirs[d].page, i)
      ensures |freeTabs| >= old(|freeTabs|) - Needs(w, dirs[d].page, i)
      ensures stolen ==> old(freeTabs) == [] && Needs(w, dirs[d].page, i) == 1
      ensures old(|freeTabs|) >= Needs(w, dirs[d].page, i) ==> OthersKept(old(View()), View(), cur)
    {
      hide InvBut, Spared, Hash, InUse, Shadow, TabOk, Present, Large, Flags, PageAddr, TableAgrees, PageToPage,
           GuestWord, OthersKept, Flagged, Fresh, Stays;
      ghost var c := View();
      UseFacts(w, c, d);
      var pde := GuestWord(w, dirs[d].page, i);
      var flags, laddr := Flags(pde), PageAddr(pde);
      FlagsPresent(pde);
      FlagsLarge(pde);
      ok, stolen := true, false;
      if !Present(flags) || Large(flags) {
        BarePde(d, i, pde);
        return;
      }
      if dirs[d].pgt[i].Some? {
        LinkOf(w, c, d, i);
        var t := dirs[d].pgt[i].value;
        if tabs[t].laddr == laddr {
          TableOk(w, c, t);
          var _ := PrefetchPgtab(t);
          OthersFill(c, d, t, tabs[t].hv);
          FlaggedKept(w, c, d, i, t, tabs[t].hv);
          return;
        }
      }
      assert !Stays(w, c, d, i) by { StaysMeans(w, c, d, i); }
      DropPgtab(d, i);
      SparedFacts(c, d, i, View(), false);
      ghost var m := View();
      ok, stolen := NewPgtab(d, i, pde, ticks);
      FlaggedNew(w, c, View(), d, i, stolen);
      SparedThen(c, m, View(), d, i, false, stolen);
      SparedFacts(c, d, i, View(), stolen);
      if |m.freeTabs| > 0 {
        OthersThen(c, m, View(), d);
      }
    }

    /** pgc_prefetch_pgdir on the current directory. At the end the shadow walk maps nothing the
        guest's does not, and unless a table was stolen all that it does. Tables can only have
        been stolen if there were fewer free than the guest has; otherwise no other directory in
        use is touched. */
    method PrefetchPgdir(clock: nat -> nat) returns (status: bool, ghost stolen: bool)
      requires Valid() && cur.Some? && PageToPage(w)
      modifies this
      ensures Valid() && Sizes(View()) && cur == old(cur) && InUse(View(), cur.value) && cur.value < NR_DIRS
      ensures dirs[cur.value].page == old(dirs[cur.value].page)
      ensures WorldOk(w) && Sound(w, View(), cur.value) && (!stolen ==> Complete(w, View(), cur.value))
      ensures forall i :: 0 <= i < NR_LPAR_PGTABS ==> EntryAgrees(w, View(), cur.value, i, stolen)
      ensures forall i :: 0 <= i < NR_LPAR_PGTABS ==> Flagged(w, old(View()), View(), cur.value, i, stolen)
      ensures forall i :: NR_LPAR_PGTABS <= i < NR_ENTRIES ==> dirs[cur.value].hv[i] == old(dirs[cur.value].hv[i])
      ensures status <==> forall i :: 0 <= i < NR_LPAR_PGTABS ==> TableThere(w, dirs[cur.value].page, i)
      ensures stolen ==> old(|freeTabs|) < AllNeeds(w, dirs[cur.value].page, NR_LPAR_PGTABS)
      ensures old(|freeTabs|) >= AllNeeds(w, dirs[cur.value].page, NR_LPAR_PGTABS) ==>
                OthersKept(old(View()), View(), cur)
    {
      hide InvBut, Spared, Hash, InUse, EntryAgrees, PageToPage, TableThere, Needs, Sound, Complete, Flagged, Waiting,
           OthersKept;
      ghost var c := View();
      var d := cur.value;
      UseFacts(w, c, d);
      ghost var page := dirs[d].page;
      WaitingStart(w, c, d);
      OthersStart(c, Some(d));
      status, stolen := true, false;
      var pdi := 0;
      while pdi < NR_LPAR_PGTABS
        invariant 0 <= pdi <= NR_LPAR_PGTABS && Valid() && Sizes(View())
        invariant cur == Some(d) && InUse(View(), d) && dirs[d].page == page
        invariant forall i :: 0 <= i < pdi ==>
                              EntryAgrees(w, View(), d, i, stolen) && Flagged(w, c, View(), d, i, stolen)
        invariant forall i :: pdi <= i < NR_LPAR_PGTABS ==> Waiting(c, View(), d, i, stolen)
        invariant forall i :: NR_LPAR_PGTABS <= i < NR_ENTRIES ==> dirs[d].hv[i] == c.dirs[d].hv[i]
        invariant status <==> forall i :: 0 <= i < pdi ==> TableThere(w, page, i)
        invariant |freeTabs| >= old(|freeTabs|) - AllNeeds(w, page, pdi)
        invariant stolen ==> old(|freeTabs|) < AllNeeds(w, page, pdi)
        invariant old(|freeTabs|) >= AllNeeds(w, page, pdi) ==> OthersKept(c, View(), Some(d))
      {
        ghost var m := View();
        var ok;
        ghost var s;
        ok, s := PrefetchPde(d, pdi, clock(pdi));
        SparedFacts(m, d, pdi, View(), s);
        SparedTop(w, m, d, pdi, View(), s);
        ghost var lost := stolen || s;
        forall i | 0 <= i < pdi
          ensures EntryAgrees(w, View(), d, i, lost)
        {
          AgreesStill(w, m, d, pdi, View(), stolen, s, i);
        }
        AgreesWeaker(w, View(), d, pdi, s, lost);
        FlaggedOn(w, c, m, d, pdi, View(), stolen, s, lost);
        if old(|freeTabs|) >= AllNeeds(w, page, pdi + 1) {
          OthersThen(c, m, View(), d);
        }
        if !ok {
          status := false;
        }
        stolen := lost;
        pdi := pdi + 1;
      }
      WalksAgree(w, View(), d, stolen);
    }

    /** pgc_hypervisor_mapping: the entries above the partition's come from the hypervisor's own
        directory. */
    method HypervisorMapping(d: nat, hvPgd: Table)
      requires Valid() && InUse(View(), d)
      modifies this
      ensures Valid() && cur == old(cur) && flushed == old(flushed)
      ensures View() == old(View()).(dirs := old(dirs)[d := old(dirs)[d].(hv := dirs[d].hv)])
      ensures forall i :: 0 <= i < NR_ENTRIES ==>
                          dirs[d].hv[i] == if i < NR_LPAR_PGTABS then old(dirs[d].hv[i]) else hvPgd[i]
    {
      hide InvBut, Hash, InUse, Spared;
      ghost var c := View();
      UseFacts(w, c, d);
      var pdi := NR_LPAR_PGTABS;
      while pdi < NR_ENTRIES
        invariant NR_LPAR_PGTABS <= pdi <= NR_ENTRIES && Valid() && Sizes(View()) && InUse(View(), d)
        invariant cur == old(cur) && flushed == old(flushed)
        invariant View() == c.(dirs := c.dirs[d := c.dirs[d].(hv := dirs[d].hv)])
        invariant forall i :: 0 <= i < NR_ENTRIES ==>
                              dirs[d].hv[i] == if NR_LPAR_PGTABS <= i < pdi then hvPgd[i] else c.dirs[d].hv[i]
      {
        ghost var m := View();
        TopUnlinked(w, m, d, pdi);
        SetPdeKeeps(w, m, d, pdi, hvPgd[pdi]);
        UseFrame(m, SetPde(m, d, pdi, hvPgd[pdi]));
        dirs := dirs[d := dirs[d].(hv := dirs[d].hv[pdi := hvPgd[pdi]])];
        pdi := pdi + 1;
      }
    }

    /** pgc_flush. */
    method Flush(d: nat)
      requires Valid() && InUse(View(), d) && PageToPage(w)
      modifies this
      ensures Valid() && cur == old(cur) && flushed == old(flushed) && Shed(old(View()), d, View()) && InUse(View(), d)
      ensures forall i :: 0 <= i < NR_LPAR_PGTABS ==> dirs[d].pgt[i].None? && !Present(dirs[d].hv[i])
      ensures forall i :: NR_LPAR_PGTABS <= i < NR_ENTRIES ==> dirs[d].hv[i] == old(dirs[d].hv[i])
    {
      hide InvBut, Hash, InUse, Shed, Present, Large, PageToPage, Spared, TabOk;
      ghost var c := View();
      UseFacts(w, c, d);
      ShedStart(c, d);
      var pdi := 0;
      while pdi < NR_LPAR_PGTABS
        invariant 0 <= pdi <= NR_LPAR_PGTABS && Valid() && Sizes(View()) && InUse(View(), d)
        invariant cur == old(cur) && flushed == old(flushed) && Shed(c, d, View())
        invariant forall i :: 0 <= i < pdi ==> dirs[d].pgt[i].None? && !Present(dirs[d].hv[i])
        invariant forall i :: NR_LPAR_PGTABS <= i < NR_ENTRIES ==> dirs[d].hv[i] == c.dirs[d].hv[i]
      {
        ghost var m := View();
        var pde := dirs[d].hv[pdi];
        EntryKind(w, m, d, pdi);
        ShadowZero(w);
        if Present(pde) {
          if !Large(pde) {
            var t := dirs[d].pgt[pdi].value;
            LinkOf(w, m, d, pdi);
            FreeTabUse(m, t);
            ShedTab(w, c, d, m, t);
            FreePgtab(t);
          } else {
            SetDirPte(d, pdi, 0);
            SparedFacts(m, d, pdi, View(), false);
            ShedPde(c, d, m, pdi);
          }
        }
        pdi := pdi + 1;
      }
    }
  }

  /** If entry i has a table, its shadow entry points to that with the flags of the guest's. */
  ghost predicate Fresh(w: World, r: Cache, d: nat, i: nat)
    requires Sizes(r) && d < NR_DIRS && i < NR_ENTRIES
  {
    var t, e := r.dirs[d].pgt[i], r.dirs[d].hv[i];
    t.Some? ==> && t.value < |w.paddr| && PageAddr(e) == w.paddr[t.value]
                && Flags(e) == Flags(GuestWord(w, r.dirs[d].page, i))
  }

  /** Entry i already has the table for the guest page that the guest's entry names. */
  ghost predicate Stays(w: World, c: Cache, d: nat, i: nat)
    requires Sizes(c) && d < NR_DIRS && i < NR_ENTRIES
  {
    var pde, t := GuestWord(w, c.dirs[d].page, i), c.dirs[d].pgt[i];
    SmallTable(pde) && t.Some? && t.value < NR_TABS && c.tabs[t.value].laddr == PageAddr(pde)
  }

  /** Entry i, and the guest page behind its table if it has one, are as in c. */
  ghost predicate Intact(c: Cache, r: Cache, d: nat, i: nat)
    requires Sizes(c) && Sizes(r) && d < NR_DIRS && i < NR_ENTRIES
  {
    var t := r.dirs[d].pgt[i];
    && SameEntry(c, r, d, i)
    && (t.Some? ==> t.value < NR_TABS && r.tabs[t.value].laddr == c.tabs[t.value].laddr)
  }

  /** The flags of entry i: those it had if it has the right table already, and the guest's if the
      table is new, which may also be because the old one was stolen. */
  ghost predicate Flagged(w: World, c: Cache, r: Cache, d: nat, i: nat, stolen: bool)
    requires Sizes(c) && Sizes(r) && d < NR_DIRS && i < NR_ENTRIES
  {
    if Stays(w, c, d, i) then Intact(c, r, d, i) || (stolen && Fresh(w, r, d, i)) else Fresh(w, r, d, i)
  }

  /** An entry the loop has not come to: intact, or without the table that was stolen. */
  ghost predicate Waiting(c: Cache, r: Cache, d: nat, i: nat, stolen: bool)
    requires Sizes(c) && Sizes(r) && d < NR_DIRS && i < NR_ENTRIES
  {
    Intact(c, r, d, i) || (stolen && r.dirs[d].pgt[i].None?)
  }

  /** While no table is stolen, an entry with a table ends up with the guest's flags exactly when the
      table is new or the flags were those already: pgc_prefetch_pgdir does not write them again. */
  lemma FlagsExactly(w: World, c: Cache, r: Cache, d: nat, i: nat)
    requires Sizes(c) && Sizes(r) && d < NR_DIRS && i < NR_ENTRIES && c.dirs[d].page == r.dirs[d].page
    requires Flagged(w, c, r, d, i, false) && r.dirs[d].pgt[i].Some?
    ensures var guest := Flags(GuestWord(w, c.dirs[d].page, i));
            Flags(r.dirs[d].hv[i]) == guest <==> !Stays(w, c, d, i) || Flags(c.dirs[d].hv[i]) == guest
  {
    hide Flags, GuestWord, SmallTable, PageAddr;
  }

  /** A table linked with other flags than the guest's entry has now: the entry is kept as it is. */
  lemma StaleFlags(w: World, c: Cache, d: nat, i: nat, t: nat, flags: Entry)
    requires Linkable(w, c, d, i, t, flags) && flags != Flags(GuestWord(w, c.dirs[d].page, i))
    requires var pde := GuestWord(w, c.dirs[d].page, i); SmallTable(pde) && c.tabs[t].laddr == PageAddr(pde)
    ensures var r := Link(w, c, d, i, t, flags);
            && Inv(w, r) && Sizes(r) && Stays(w, r, d, i)
            && Flags(r.dirs[d].hv[i]) != Flags(GuestWord(w, r.dirs[d].page, i))
  {
    hide DirOk, TabOk, HashOk, Hash, Flags, PageAddr, SmallTable, GuestWord, Present, Large, Compose;
    LinkKeeps(w, c, d, i, t, flags);
    FlagsApart(w.paddr[t], flags);
  }

  lemma SetPteKeeps(w: World, c: Cache, d: nat, i: nat, entry: Entry)
    requires Inv(w, c) && Sizes(c) && d < NR_DIRS && InUse(c, d) && i < NR_LPAR_PGTABS && c.dirs[d].pgt[i].None?
    requires PageToPage(w)
    ensures var r := SetPde(c, d, i, Shadow(w, entry).0);
            !Present(entry) || Large(entry) ==> Inv(w, r) && Spared(c, d, i, r, false)
  {
    hide InvBut, Spared, Hash, InUse, Shadow, Present, Large, PageToPage;
    ShadowFaithful(w, entry);
    if !Present(entry) || Large(entry) {
      SetPdeKeeps(w, c, d, i, Shadow(w, entry).0);
    }
  }

  lemma StaysMeans(w: World, c: Cache, d: nat, i: nat)
    requires Sizes(c) && d < NR_DIRS && i < NR_ENTRIES
    ensures Stays(w, c, d, i) ==> c.dirs[d].pgt[i].Some? && c.dirs[d].pgt[i].value < NR_TABS
                                  && c.tabs[c.dirs[d].pgt[i].value].laddr == PageAddr(GuestWord(w, c.dirs[d].page, i))
  {
  }

  lemma FlaggedBare(w: World, c: Cache, r: Cache, d: nat, i: nat)
    requires Sizes(c) && Sizes(r) && d < NR_DIRS && i < NR_ENTRIES && r.dirs[d].pgt[i].None?
    requires !SmallTable(GuestWord(w, c.dirs[d].page, i))
    ensures Flagged(w, c, r, d, i, false)
  {
  }

  lemma FlaggedKept(w: World, c: Cache, d: nat, i: nat, t: nat, hv: Table)
    requires Sizes(c) && d < NR_DIRS && i < NR_ENTRIES && t < NR_TABS && c.dirs[d].pgt[i] == Some(t)
    requires var pde := GuestWord(w, c.dirs[d].page, i); SmallTable(pde) && c.tabs[t].laddr == PageAddr(pde)
    ensures Flagged(w, c, FillTab(c, t, hv), d, i, false)
  {
  }

  lemma FlaggedNew(w: World, c: Cache, r: Cache, d: nat, i: nat, stolen: bool)
    requires Sizes(c) && Sizes(r) && d < NR_DIRS && i < NR_ENTRIES && !Stays(w, c, d, i) && Fresh(w, r, d, i)
    ensures Flagged(w, c, r, d, i, stolen)
  {
  }

  lemma WaitingStart(w: World, c: Cache, d: nat)
    requires Inv(w, c) && Sizes(c) && d < NR_DIRS
    ensures forall i :: 0 <= i < NR_LPAR_PGTABS ==> Waiting(c, c, d, i, false)
  {
    hide InvBut;
    forall i | 0 <= i < NR_LPAR_PGTABS && c.dirs[d].pgt[i].Some?
      ensures c.dirs[d].pgt[i].value < NR_TABS
    {
      LinkOf(w, c, d, i);
    }
  }

  /** Work on another entry keeps entry i or takes its table away. */
  lemma WaitingStill(w: World, m: Cache, d: nat, but: nat, r: Cache, s: bool, i: nat)
    requires Spared(m, d, but, r, s) && Inv(w, r) && i < NR_ENTRIES && i != but
    ensures Waiting(m, r, d, i, s)
  {
    hide InvBut, InUse;
    if r.dirs[d].pgt[i].Some? {
      LinkOf(w, r, d, i);
    }
    assert SameEntry(m, r, d, i) || (s && LostTable(m, r, d, i));
  }

  lemma FlaggedOn(w: World, c: Cache, m: Cache, d: nat, n: nat, r: Cache, was: bool, s: bool, lost: bool)
    requires Sizes(c) && Sizes(m) && Sizes(r) && d < NR_DIRS && n < NR_LPAR_PGTABS && Inv(w, r) && lost == (was || s)
    requires c.dirs[d].page == m.dirs[d].page && Spared(m, d, n, r, s) && Flagged(w, m, r, d, n, s)
    requires forall i :: 0 <= i < n ==> Flagged(w, c, m, d, i, was)
    requires forall i :: n <= i < NR_LPAR_PGTABS ==> Waiting(c, m, d, i, was)
    ensures forall i :: 0 <= i < n + 1 ==> Flagged(w, c, r, d, i, lost)
    ensures forall i :: n + 1 <= i < NR_LPAR_PGTABS ==> Waiting(c, r, d, i, lost)
  {
    hide InvBut, InUse, Spared, Flagged, Waiting;
    forall i | 0 <= i < NR_LPAR_PGTABS
      ensures i <= n ==> Flagged(w, c, r, d, i, lost)
      ensures n < i ==> Waiting(c, r, d, i, lost)
    {
      if i != n {
        WaitingStill(w, m, d, n, r, s, i);
      }
      SamePage(m, d, n, r, s);
      FlaggedThen(w, c, m, d, r, i, was, s);
    }
  }

  lemma SamePage(m: Cache, d: nat, but: nat, r: Cache, s: bool)
    requires Sizes(m) && Sizes(r) && d < NR_DIRS && Spared(m, d, but, r, s)
    ensures r.dirs[d].page == m.dirs[d].page
  {
  }

  lemma FlaggedThen(w: World, c: Cache, m: Cache, d: nat, r: Cache, i: nat, was: bool, s: bool)
    requires Sizes(c) && Sizes(m) && Sizes(r) && d < NR_DIRS && i < NR_ENTRIES
    requires c.dirs[d].page == m.dirs[d].page == r.dirs[d].page
    ensures Waiting(c, m, d, i, was) && Waiting(m, r, d, i, s) ==> Waiting(c, r, d, i, was || s)
    ensures Flagged(w, c, m, d, i, was) && Waiting(m, r, d, i, s) ==> Flagged(w, c, r, d, i, was || s)
    ensures Waiting(c, m, d, i, was) && Flagged(w, m, r, d, i, s) ==> Flagged(w, c, r, d, i, was || s)
  {
    hide PageAddr, Flags, GuestWord, SmallTable;
  }

  /** Directories in use, other than d, and the tables linked to them are in r as in c. */
  ghost predicate OthersKept(c: Cache, r: Cache, d: Option<nat>) {
    && Sizes(c) && Sizes(r)
    && (forall e: nat :: InUse(c, e) && Some(e) != d ==> InUse(r, e) && e < NR_DIRS && r.dirs[e] == c.dirs[e])
    && (forall t :: 0 <= t < NR_TABS && c.tabs[t].pgd.Some? && c.tabs[t].pgd != d ==> r.tabs[t] == c.tabs[t])
  }

  lemma OthersStart(c: Cache, d: Option<nat>)
    requires Sizes(c)
    ensures OthersKept(c, c, d)
  {
  }

  lemma OthersThen(a: Cache, b: Cache, c: Cache, d: nat)
    requires (OthersKept(a, b, Some(d)) || OthersKept(a, b, None)) && OthersKept(b, c, Some(d))
    ensures OthersKept(a, c, Some(d))
  {
    hide InUse;
  }

  lemma OthersTakeDir(w: World, c: Cache, laddr: Entry, page: Option<Entry>, ticks: nat)
    requires Inv(w, c) && Sizes(c) && c.freeDirs != [] && c.freeDirs[0] < NR_DIRS && c.dirCount > 0
    ensures OthersKept(c, TakeDir(c, laddr, page, ticks), None)
  {
    TakeDirUse(w, c, laddr, page, ticks);
    hide TabOk, FreeOk, HashOk, Hash, InUse;
    assert c.freeDirs[0] in c.freeDirs && DirOk(w, c, c.freeDirs[0]);
  }

  lemma OthersTakeTab(w: World, c: Cache, laddr: Entry, page: Option<Entry>)
    requires Inv(w, c) && c.freeTabs != []
    ensures c.freeTabs[0] < NR_TABS && c.tabCount > 0 && OthersKept(c, TakeTab(c, laddr, page), None)
  {
    hide DirOk, HashOk, Hash;
    assert c.freeTabs[0] in c.freeTabs;
    UseFrame(c, TakeTab(c, laddr, page));
    assert TabOk(w, c, c.freeTabs[0]);
  }

  lemma OthersFreeTab(w: World, c: Cache, t: nat, d: nat)
    requires Linked(w, c, t) && c.tabs[t].pgd == Some(d)
    ensures OthersKept(c, FreeTab(c, t), Some(d))
  {
    hide Hash;
    UseFrame(c, FreeTab(c, t));
    hide InUse;
  }

  lemma OthersPde(c: Cache, d: nat, i: nat, e: Entry)
    requires Sizes(c) && d < NR_DIRS && i < NR_ENTRIES
    ensures OthersKept(c, SetPde(c, d, i, e), Some(d))
  {
    hide Hash;
    UseFrame(c, SetPde(c, d, i, e));
    hide InUse;
  }

  lemma OthersFill(c: Cache, d: nat, t: nat, hv: Table)
    requires Sizes(c) && t < NR_TABS && (c.tabs[t].pgd == Some(d) || c.tabs[t].pgd == None)
    ensures OthersKept(c, FillTab(c, t, hv), Some(d))
  {
    hide Hash;
    UseFrame(c, FillTab(c, t, hv));
    hide InUse;
  }

  lemma OthersLinkFill(w: World, c: Cache, d: nat, i: nat, t: nat, flags: Entry, hv: Table)
    requires Linkable(w, c, d, i, t, flags)
    ensures OthersKept(c, FillTab(Link(w, c, d, i, t, flags), t, hv), Some(d))
  {
    hide Hash, DirOk, TabOk, FreeOk, HashOk, Compose;
    UseFrame(c, FillTab(Link(w, c, d, i, t, flags), t, hv));
    hide InUse;
  }

  /** Entry i of the guest directory has no small page table at a bad address. */
  ghost predicate TableThere(w: World, page: Option<Entry>, i: nat) {
    var pde := GuestWord(w, page, i);
    SmallTable(pde) ==> w.l2p(PageAddr(pde)).Some?
  }

  /** Table frames the guest directory asks for, at entry i and in all before n. */
  ghost function Needs(w: World, page: Option<Entry>, i: nat): nat {
    if SmallTable(GuestWord(w, page, i)) then 1 else 0
  }

  ghost function AllNeeds(w: World, page: Option<Entry>, n: nat): nat {
    if n == 0 then 0 else AllNeeds(w, page, n - 1) + Needs(w, page, n - 1)
  }

  lemma ShadowAbsent(w: World, e: Entry)
    requires !Present(e)
    ensures Shadow(w, e) == (0, true)
  {
  }

  lemma TableOk(w: World, c: Cache, t: nat)
    requires Linked(w, c, t)
    ensures c.tabs[t].page == w.l2p(c.tabs[t].laddr) && c.tabs[t].page.Some?
  {
  }

  lemma AgreesWeaker(w: World, c: Cache, d: nat, j: nat, s: bool, more: bool)
    requires Sizes(c) && d < NR_DIRS && j < NR_ENTRIES && EntryAgrees(w, c, d, j, s) && (s ==> more)
    ensures EntryAgrees(w, c, d, j, more)
  {
  }

  lemma TopUnlinked(w: World, c: Cache, d: nat, i: nat)
    requires Inv(w, c) && d < NR_DIRS && NR_LPAR_PGTABS <= i < NR_ENTRIES
    ensures c.dirs[d].pgt[i].None?
  {
    hide InUse, HashOk, FreeOk, TabOk, PointsTo;
    assert DirOk(w, c, d) && EntryOk(w, c, d, i);
  }

  /** Hypervisor entries have no tables to lose. */
  lemma SparedTop(w: World, c: Cache, d: nat, but: nat, r: Cache, stolen: bool)
    requires Spared(c, d, but, r, stolen) && Inv(w, c) && but < NR_LPAR_PGTABS
    ensures forall i :: NR_LPAR_PGTABS <= i < NR_ENTRIES ==> r.dirs[d].hv[i] == c.dirs[d].hv[i]
  {
    hide InUse, HashOk, FreeOk, TabOk, PointsTo;
    assert DirOk(w, c, d);
    forall i | NR_LPAR_PGTABS <= i < NR_ENTRIES
      ensures r.dirs[d].hv[i] == c.dirs[d].hv[i]
    {
      assert EntryOk(w, c, d, i);
      assert SameEntry(c, r, d, i) || (stolen && LostTable(c, r, d, i));
    }
  }

  /** A present shadow entry has a table exactly when it is not for a large page. */
  lemma EntryKind(w: World, c: Cache, d: nat, i: nat)
    requires Inv(w, c) && d < NR_DIRS && i < NR_LPAR_PGTABS
    ensures c.dirs[d].pgt[i].Some? <==> Present(c.dirs[d].hv[i]) && !Large(c.dirs[d].hv[i])
  {
    hide Present, Large, HashOk, FreeOk, TabOk, InUse;
    assert DirOk(w, c, d) && EntryOk(w, c, d, i);
  }

  lemma ShedStart(c: Cache, d: nat)
    requires Sizes(c) && d < NR_DIRS
    ensures Shed(c, d, c)
  {
  }

  lemma ShedTab(w: World, c: Cache, d: nat, r: Cache, t: nat)
    requires Shed(c, d, r) && Linked(w, r, t) && r.tabs[t].pgd == Some(d) && Inv(w, c) && Inv(w, r)
    ensures Shed(c, d, FreeTab(r, t))
  {
    hide Hash, HashOk, DirOk, InUse, PointsTo;
    assert TabOk(w, c, t) && TabOk(w, r, t);
  }

  lemma ShedPde(c: Cache, d: nat, r: Cache, i: nat)
    requires Shed(c, d, r) && i < NR_ENTRIES
    ensures Shed(c, d, SetPde(r, d, i, 0))
  {
  }

  lemma LinkOf(w: World, c: Cache, d: nat, i: nat)
    requires Inv(w, c) && d < NR_DIRS && i < NR_ENTRIES && c.dirs[d].pgt[i].Some?
    ensures var t := c.dirs[d].pgt[i].value; Linked(w, c, t) && c.tabs[t].pgd == Some(d) && c.tabs[t].pdi == i
  {
    hide HashOk, FreeOk, InUse, Hash;
    assert DirOk(w, c, d) && EntryOk(w, c, d, i) && TabOk(w, c, c.dirs[d].pgt[i].value);
  }

  lemma SparedFacts(c: Cache, d: nat, but: nat, r: Cache, stolen: bool)
    requires Spared(c, d, but, r, stolen)
    ensures Sizes(c) && Sizes(r) && d < NR_DIRS && InUse(r, d) && r.dirs[d].page == c.dirs[d].page
    ensures but == NR_ENTRIES ==> forall j :: 0 <= j < NR_ENTRIES && c.dirs[d].pgt[j].None? ==> r.dirs[d].pgt[j].None?
  {
    hide InUse;
    forall j | 0 <= j < NR_ENTRIES && but == NR_ENTRIES && c.dirs[d].pgt[j].None?
      ensures r.dirs[d].pgt[j].None?
    {
      assert SameEntry(c, r, d, j) || (stolen && LostTable(c, r, d, j));
    }
  }

  lemma SparedLoose(w: World, c: Cache, d: nat, r: Cache, stolen: bool, but: nat, loose: nat)
    requires Spared(c, d, NR_ENTRIES, r, stolen) && InvBut(w, r, Some(loose))
    ensures Spared(c, d, but, r, stolen) && WorldOk(w)
  {
    hide InUse, DirOk, FreeOk, HashOk;
    forall t | 0 <= t < NR_TABS && r.tabs[t].pgd == Some(d)
      ensures r.tabs[t].pdi < NR_ENTRIES
    {
      assert t != loose ==> TabOk(w, r, t);
    }
    SparedLess(c, d, r, stolen, but);
  }

  lemma SparedWhole(w: World, c: Cache, d: nat, r: Cache, stolen: bool, but: nat)
    requires Spared(c, d, NR_ENTRIES, r, stolen) && Inv(w, r)
    ensures Spared(c, d, but, r, stolen)
  {
    hide InUse, DirOk, FreeOk, HashOk;
    forall t | 0 <= t < NR_TABS && r.tabs[t].pgd == Some(d)
      ensures r.tabs[t].pdi < NR_ENTRIES
    {
      assert TabOk(w, r, t);
    }
    SparedLess(c, d, r, stolen, but);
  }

  lemma TakeDirReady(w: World, c: Cache)
    requires Inv(w, c) && c.freeDirs != []
    ensures Sizes(c) && c.freeDirs[0] < NR_DIRS && c.dirCount > 0 && c.dirs[c.freeDirs[0]].pgt == NoLinks()
  {
    hide DirOk, TabOk, HashOk, Distinct;
    assert c.freeDirs[0] in c.freeDirs;
    FreeDirBlank(w, c, c.freeDirs[0]);
  }

  lemma TakeDirAll(w: World, c: Cache, laddr: Entry, page: Option<Entry>, ticks: nat)
    requires Inv(w, c) && Sizes(c) && c.freeDirs != [] && c.freeDirs[0] < NR_DIRS && c.dirCount > 0
    ensures var r := TakeDir(c, laddr, page, ticks);
            Inv(w, r) && Sizes(r) && InUse(r, c.freeDirs[0]) && forall e: nat :: InUse(c, e) ==> InUse(r, e)
  {
    hide InvBut, InUse, FreeOk, HashOk, Hash;
    TakeDirKeeps(w, c, laddr, page, ticks);
    TakeDirUse(w, c, laddr, page, ticks);
  }

  lemma FreeDirBlank(w: World, c: Cache, d: nat)
    requires Inv(w, c) && d in c.freeDirs
    ensures d < NR_DIRS && c.dirs[d].pgt == NoLinks()
  {
    assert DirOk(w, c, d);
  }

  lemma ReclaimedSpares(c: Cache, d: Option<nat>, r: Cache, flushed: Option<nat>, stolen: bool)
    requires Reclaimed(c, d, r, flushed, stolen) && d.Some?
    ensures Spared(c, d.value, NR_ENTRIES, r, stolen)
  {
  }

  /** The cache after n directories have been taken in turn, all at the same tick. */
  ghost function Taken(c: Cache, addr: nat -> Entry, page: nat -> Option<Entry>, ticks: nat, n: nat): Cache {
    if n == 0 then c
    else
      var m := Taken(c, addr, page, ticks, n - 1);
      if Sizes(m) && m.freeDirs != [] && m.freeDirs[0] < NR_DIRS && m.dirCount > 0
      then TakeDir(m, addr(n - 1), page(n - 1), ticks) else m
  }

  /** All other chains are empty, and this one ends in the directory taken first. */
  ghost predicate OneChain(r: Cache, h: nat, n: nat, first: nat, ticks: nat)
    requires Sizes(r)
  {
    && h < HASHSIZE && |r.htab[h]| == n && (n > 0 ==> r.htab[h][n - 1] == first)
    && (forall g :: 0 <= g < HASHSIZE && g != h ==> r.htab[g] == [])
    && (forall d: nat :: d in r.htab[h] ==> d < NR_DIRS && r.dirs[d].last == ticks)
  }

  lemma {:induction false} TakenChain(w: World, c: Cache, addr: nat -> Entry, page: nat -> Option<Entry>, ticks: nat,
                                      h: nat, n: nat)
    requires Inv(w, c) && |c.freeDirs| == NR_DIRS && n <= NR_DIRS && (forall d: nat :: !InUse(c, d))
    requires h < HASHSIZE && forall i: nat :: Hash(addr(i)) == h
    ensures var r := Taken(c, addr, page, ticks, n);
            && Inv(w, r) && |r.freeDirs| == NR_DIRS - n && OneChain(r, h, n, c.freeDirs[0], ticks)
            && (n == 0 ==> r.freeDirs == c.freeDirs)
  {
    hide InvBut, Hash;
    SizesOf(w, c);
    if n == 0 {
      NoChains(w, c);
    } else {
      TakenChain(w, c, addr, page, ticks, h, n - 1);
      var m := Taken(c, addr, page, ticks, n - 1);
      SizesOf(w, m);
      TakeDirKeeps(w, m, addr(n - 1), page(n - 1), ticks);
      var r := TakeDir(m, addr(n - 1), page(n - 1), ticks);
      TakenOne(w, m, addr(n - 1), page(n - 1), ticks, h, n - 1, c.freeDirs[0]);
    }
  }

  lemma NoChains(w: World, c: Cache)
    requires Inv(w, c) && forall d: nat :: !InUse(c, d)
    ensures forall h :: 0 <= h < HASHSIZE ==> c.htab[h] == []
  {
    hide DirOk, TabOk, FreeOk, Hash;
    forall h | 0 <= h < HASHSIZE
      ensures c.htab[h] == []
    {
      var chain := c.htab[h];
      assert chain != [] ==> chain[0] in chain && InUse(c, chain[0]);
    }
  }

  lemma TakenOne(w: World, m: Cache, laddr: Entry, page: Option<Entry>, ticks: nat, h: nat, n: nat, first: nat)
    requires Inv(w, m) && Sizes(m) && m.freeDirs != [] && m.freeDirs[0] < NR_DIRS && m.dirCount > 0
    requires OneChain(m, h, n, first, ticks) && Hash(laddr) == h && (n == 0 ==> m.freeDirs[0] == first)
    ensures OneChain(TakeDir(m, laddr, page, ticks), h, n + 1, first, ticks)
  {
    hide InvBut, Hash;
    var r, d := TakeDir(m, laddr, page, ticks), m.freeDirs[0];
    assert r.htab[h] == [d] + m.htab[h];
  }

  lemma {:induction false} ScanOne(htab: seq<seq<nat>>, h: nat)
    requires h < |htab| && forall g :: 0 <= g < |htab| && g != h ==> htab[g] == []
    ensures Scan(htab) == htab[h]
  {
    var n := |htab| - 1;
    if h == n {
      ScanEmpty(htab[..n]);
    } else {
      ScanOne(htab[..n], h);
    }
  }

  lemma {:induction false} ScanEmpty(htab: seq<seq<nat>>)
    requires forall g :: 0 <= g < |htab| ==> htab[g] == []
    ensures Scan(htab) == []
  {
    if htab != [] {
      ScanEmpty(htab[..|htab| - 1]);
    }
  }

  /** Among directories used at the same tick the scan ends with the last. */
  lemma LruLast(dirs: seq<Dir>, list: seq<nat>, ticks: nat)
    requires Below(list, |dirs|) && list != [] && forall d: nat :: d in list ==> dirs[d].last == ticks
    ensures Lru(dirs, list) == Some(list[|list| - 1])
  {
    var n := |list| - 1;
    assert list == list[..n] + [list[n]];
    LruMore(dirs, list[..n], list[n]);
    if n > 0 {
      assert Lru(dirs, list[..n]).value in list;
    }
  }

  /** Reclamation can fail: when all directory frames have been taken within one tick, for guest
      directories of one hash chain, the first one taken is the victim. If it is the current one,
      pgc_garbage_collect comes back without a directory frame. */
  lemma CollectorFails(w: World, c: Cache, addr: nat -> Entry, page: nat -> Option<Entry>, ticks: nat, h: nat)
    requires Inv(w, c) && |c.freeDirs| == NR_DIRS && (forall d: nat :: !InUse(c, d))
    requires h < HASHSIZE && forall i: nat :: Hash(addr(i)) == h
    ensures var r := Taken(c, addr, page, ticks, NR_DIRS);
            && Inv(w, r) && r.freeDirs == [] && InUse(r, c.freeDirs[0])
            && Below(Scan(r.htab), NR_DIRS) && Lru(r.dirs, Scan(r.htab)) == Some(c.freeDirs[0])
  {
    hide InvBut, Hash, Taken, InUse, Lru, Scan;
    TakenChain(w, c, addr, page, ticks, h, NR_DIRS);
    var r := Taken(c, addr, page, ticks, NR_DIRS);
    SizesOf(w, r);
    ScanOne(r.htab, h);
    ScanUse(w, r, None);
    LruLast(r.dirs, Scan(r.htab), ticks);
    assert c.freeDirs[0] in Scan(r.htab);
  }

  /** A directory used before the current one keeps it from being the victim. */
  lemma OlderIsTaken(w: World, c: Cache, d: nat, e: nat)
    requires Inv(w, c) && InUse(c, d) && InUse(c, e) && c.dirs[e].last < c.dirs[d].last
    ensures Below(Scan(c.htab), NR_DIRS) && Lru(c.dirs, Scan(c.htab)) != Some(d)
  {
    LruOldest(w, c);
  }

  lemma DirFreedFacts(w: World, c: Cache, d: nat, r: Cache)
    requires DirFreed(w, c, d, r)
    ensures Inv(w, r) && Sizes(r) && Sizes(c) && d < NR_DIRS && r.freeDirs == [d] + c.freeDirs
    ensures forall e: nat :: InUse(r, e) <==> InUse(c, e) && e != d
  {
  }

  /** Freeing stopped in time: with one directory for a directory frame, and for a table frame with
      the first that has a table. All of `gone` had none if nothing was found. */
  ghost predicate Enough(c: Cache, kind: Kind, gone: seq<nat>, found: bool)
    requires Sizes(c)
  {
    match kind
    case PgDir => |gone| == if found then 1 else 0
    case PgTab =>
      && (forall i :: 0 <= i < |gone| - (if found then 1 else 0) ==> Bare(c, gone[i]))
      && (found ==> gone != [] && !Bare(c, gone[|gone| - 1]))
  }

  /** Freeing the flushed directory gives the frame. */
  ghost predicate FlushSuffices(c: Cache, kind: Kind, but: Option<nat>)
    requires Sizes(c)
  {
    but.Some? && (kind.PgDir? || !Bare(c, but.value))
  }

  lemma NoneGone(c: Cache, kind: Kind)
    requires Sizes(c)
    ensures Enough(c, kind, [], false)
  {
  }

  lemma EnoughMore(w: World, c: Cache, kind: Kind, gone: seq<nat>, but: Option<nat>, r: Cache, v: nat, q: Cache)
    requires Tracks(c, gone, but, r) && Sizes(c) && Enough(c, kind, gone, false) && DirFreed(w, r, v, q) && InUse(r, v)
    requires match kind case PgDir => gone == [] case PgTab => r.freeTabs == []
    ensures Enough(c, kind, gone + [v], match kind case PgDir => true case PgTab => q.freeTabs != [])
  {
    hide DirFreed, Tracks, Bare, InUse;
    if kind.PgTab? {
      FreesTables(w, r, v, q);
      BareBefore(c, gone, but, r, v);
    }
  }

  /** Of the directories in use in r, d is next in the order of the scan of c. */
  ghost predicate NextOf(c: Cache, r: Cache, d: nat)
    requires Sizes(r)
  {
    forall f: nat :: InUse(r, f) && f != d ==> Sooner(c, d, f)
  }

  lemma VictimNext(w: World, c: Cache, gone: seq<nat>, but: Option<nat>, r: Cache, v: nat)
    requires Tracks(c, gone, but, r) && Inv(w, r) && Sizes(r) && Below(Scan(r.htab), NR_DIRS)
    requires Lru(r.dirs, Scan(r.htab)) == Some(v)
    ensures NextOf(c, r, v)
  {
    hide InvBut, InUse, Scan, Lru, Sooner, FreedInOrder, Undisturbed;
    forall f: nat | InUse(r, f) && f != v
      ensures Sooner(c, v, f)
    {
      LruSooner(w, r, v, f);
    }
  }

  lemma NextStill(w: World, c: Cache, r: Cache, d: nat, t: nat)
    requires Sizes(r) && NextOf(c, r, d) && Linked(w, r, t)
    ensures NextOf(c, FreeTab(r, t), d)
  {
    hide Sooner, Hash;
    UseFrame(r, FreeTab(r, t));
    hide InUse;
  }

  lemma TracksParts(c: Cache, gone: seq<nat>, but: Option<nat>, r: Cache)
    requires Tracks(c, gone, but, r)
    ensures FreedInOrder(c, gone, but, r) && Undisturbed(c, r, None)
  {
  }

  /** With no frame of a kind free, some directory is in use. */
  lemma SomeInUse(w: World, c: Cache, kind: Kind)
    requires Inv(w, c) && (match kind case PgDir => c.freeDirs == [] case PgTab => c.freeTabs == [])
    ensures exists d: nat :: InUse(c, d)
  {
    hide Hash;
    if kind.PgTab? {
      AllLinked(w, c, 0);
      assert InUse(c, c.tabs[0].pgd.value);
    } else {
      assert DirOk(w, c, 0) && 0 !in c.freeDirs;
    }
  }

  /** With no table frame free, every one is linked. */
  lemma AllLinked(w: World, c: Cache, t: nat)
    requires Inv(w, c) && c.freeTabs == [] && t < NR_TABS
    ensures Linked(w, c, t)
  {
    hide FreeOk, HashOk, DirOk, Hash;
    assert TabOk(w, c, t);
  }

  lemma FreeTabUse(c: Cache, t: nat)
    requires Sizes(c) && t < NR_TABS && c.tabs[t].pgd.Some? && c.tabs[t].pgd.value < NR_DIRS
    requires c.tabs[t].pdi < NR_ENTRIES
    ensures var r := FreeTab(c, t);
            Sizes(r) && r.freeTabs != [] && (forall d: nat :: InUse(r, d) <==> InUse(c, d))
            && (forall d: nat :: Oldest(c, d) ==> Oldest(r, d))
  {
  }

  lemma SizesOf(w: World, c: Cache)
    requires Inv(w, c)
    ensures Sizes(c)
  {
  }

  lemma LruNone(dirs: seq<Dir>)
    ensures Below([], |dirs|) && Lru(dirs, []) == None
  {
  }

  lemma AllFreeInv(w: World, c: Cache)
    requires WorldOk(w) && Sizes(c) && |c.freeDirs| == c.dirCount == NR_DIRS && |c.freeTabs| == c.tabCount == NR_TABS
    requires forall h :: 0 <= h < HASHSIZE ==> c.htab[h] == []
    requires forall d :: 0 <= d < NR_DIRS ==>
                         c.dirs[d].hv == ZeroPage() && c.dirs[d].pgt == NoLinks() && c.freeDirs[d] == d
    requires forall t :: 0 <= t < NR_TABS ==> c.tabs[t].hv == ZeroPage() && c.tabs[t].pgd.None? && c.freeTabs[t] == t
    ensures Inv(w, c) && forall d: nat :: !InUse(c, d)
  {
  }

  lemma {:induction false} WithoutAt(s: seq<nat>, k: nat)
    requires Distinct(s) && k < |s|
    ensures Without(s, s[k]) == s[..k] + s[k + 1..]
  {
    if k == 0 {
      WithoutAbsent(s[1..], s[0]);
    } else {
      WithoutAt(s[1..], k - 1);
    }
  }

  lemma LruMore(dirs: seq<Dir>, list: seq<nat>, x: nat)
    requires Below(list, |dirs|) && x < |dirs|
    ensures Below(list + [x], |dirs|)
    ensures var v := Lru(dirs, list);
            Lru(dirs, list + [x]) == if v.None? || dirs[v.value].last >= dirs[x].last then Some(x) else v
  {
  }
}
