/** The order in which pgc_garbage_collect frees directories, and when it has freed enough. */
module Reclaim {
  import opened Lists
  import opened PgCache

  // ---------------------------------------------------------------------------------------------
  // The order of the scan

  /** Of two directories in use, e is picked before f: it was used before f, or at the same time and
      the scan comes to it later. */
  ghost predicate Sooner(c: Cache, e: nat, f: nat) {
    var scan := Scan(c.htab);
    Below(scan, |c.dirs|) &&
    exists i: nat, j: nat :: i < |scan| && j < |scan| && scan[i] == e && scan[j] == f && Yields(c.dirs, scan, i, j)
  }

  lemma LruSooner(w: World, c: Cache, v: nat, f: nat)
    requires Inv(w, c) && Below(Scan(c.htab), |c.dirs|) && Lru(c.dirs, Scan(c.htab)) == Some(v) && InUse(c, f) && f != v
    ensures Sooner(c, v, f)
  {
    hide InvBut, InUse, Distinct, Hash, Scan, Lru, Yields, Below;
    ScanUse(w, c, None);
    var scan := Scan(c.htab);
    var i: nat :| i < |scan| && scan[i] == v;
    var j: nat :| j < |scan| && scan[j] == f;
    LruExactly(c.dirs, scan, i);
  }

  lemma {:induction false} WithoutBoth(a: seq<nat>, b: seq<nat>, x: nat)
    ensures Without(a + b, x) == Without(a, x) + Without(b, x)
  {
    if a == [] {
      assert a + b == b;
    } else {
      assert (a + b)[1..] == a[1..] + b;
      WithoutBoth(a[1..], b, x);
    }
  }

  /** Taking a directory out of its chain takes it out of the scan. */
  lemma {:induction false} ScanWithout(htab: seq<seq<nat>>, h: nat, d: nat)
    requires forall g :: 0 <= g < |htab| && g != h ==> d !in htab[g]
    ensures h < |htab| ==> Scan(htab[h := Without(htab[h], d)]) == Without(Scan(htab), d)
    ensures h >= |htab| ==> Without(Scan(htab), d) == Scan(htab)
  {
    if htab != [] {
      var n := |htab| - 1;
      var front, last := htab[..n], htab[n];
      ScanWithout(front, h, d);
      WithoutBoth(Scan(front), last, d);
      if h == n {
        assert htab[h := Without(htab[h], d)][..n] == front;
      } else {
        WithoutAbsent(last, d);
        if h < n {
          assert htab[h := Without(htab[h], d)][..n] == front[h := Without(front[h], d)];
        }
      }
    }
  }

  /** Where entry i of the shorter list comes from. */
  ghost function Whence(list: seq<nat>, x: nat, i: nat): (k: nat)
    requires i < |Without(list, x)|
    ensures k < |list| && list[k] == Without(list, x)[i]
  {
    if list[0] == x then 1 + Whence(list[1..], x, i)
    else if i == 0 then 0
    else 1 + Whence(list[1..], x, i - 1)
  }

  lemma {:induction false} WhenceOrdered(list: seq<nat>, x: nat, i: nat, j: nat)
    requires i < j < |Without(list, x)|
    ensures Whence(list, x, i) < Whence(list, x, j)
  {
    if list[0] == x {
      WhenceOrdered(list[1..], x, i, j);
    } else if i > 0 {
      WhenceOrdered(list[1..], x, i - 1, j - 1);
    }
  }

  lemma ScanFreed(w: World, c: Cache, d: nat, q: Cache)
    requires DirFreed(w, c, d, q)
    ensures Scan(q.htab) == Without(Scan(c.htab), d)
  {
    hide DirOk, TabOk, FreeOk, Hash, Scan, Without;
    var h := Hash(c.dirs[d].laddr);
    assert forall g :: 0 <= g < HASHSIZE && g != h ==> d !in c.htab[g];
    ScanWithout(c.htab, h, d);
  }

  /** The order of those left was their order before. */
  lemma SoonerBefore(w: World, c: Cache, d: nat, q: Cache, e: nat, f: nat)
    requires DirFreed(w, c, d, q) && Sooner(q, e, f)
    ensures Sooner(c, e, f)
  {
    ScanFreed(w, c, d, q);
    ScanUse(w, c, None);
    hide InvBut, InUse, Hash, Scan, Without, Whence, Distinct;
    var a, b := Scan(c.htab), Scan(q.htab);
    var i: nat, j: nat :| i < |b| && j < |b| && b[i] == e && b[j] == f && Yields(q.dirs, b, i, j);
    var k, l := Whence(a, d, i), Whence(a, d, j);
    if j < i {
      WhenceOrdered(a, d, j, i);
    }
    assert b[i] in b && b[j] in b;
    assert e != d && f != d && q.dirs[e] == c.dirs[e] && q.dirs[f] == c.dirs[f];
    assert Yields(c.dirs, a, k, l);
  }

  // ---------------------------------------------------------------------------------------------
  // What has been freed

  /** From c to r the directories `gone` left use one after the other, each the next in the order of
      the scan, besides `but` if there is one; nothing else did. */
  ghost predicate FreedInOrder(c: Cache, gone: seq<nat>, but: Option<nat>, r: Cache) {
    && Sizes(c) && Sizes(r)
    && (forall e: nat :: InUse(r, e) <==> InUse(c, e) && e !in gone && Some(e) != but)
    && (forall e: nat :: e in gone ==> InUse(c, e) && Some(e) != but)
    && (forall i, j :: 0 <= i < j < |gone| ==> Sooner(c, gone[i], gone[j]))
    && (forall e: nat, f: nat :: e in gone && InUse(r, f) ==> Sooner(c, e, f))
  }

  /** Directories in use and linked tables are as they were, apart from table `skip`, which is free,
      and the entry that linked it, which is blank. */
  ghost predicate Undisturbed(c: Cache, r: Cache, skip: Option<nat>) {
    && Sizes(c) && Sizes(r)
    && (forall t :: 0 <= t < NR_TABS && Some(t) != skip && r.tabs[t].pgd.Some? ==> r.tabs[t] == c.tabs[t])
    && (skip.Some? ==> skip.value < NR_TABS && r.tabs[skip.value].pgd.None? && r.freeTabs == [skip.value])
    && (forall e: nat :: InUse(r, e) && e < NR_DIRS ==>
                           r.dirs[e] == if skip.Some? && c.tabs[skip.value].pgd == Some(e)
                                        then Unlinked(c.dirs[e], c.tabs[skip.value].pdi) else c.dirs[e])
  }

  ghost function Unlinked(d: Dir, i: nat): Dir {
    if i < NR_ENTRIES then d.(pgt := d.pgt[i := None], hv := d.hv[i := 0]) else d
  }

  ghost predicate Echoes(c: Cache, r: Cache) {
    forall e, f :: Sooner(r, e, f) ==> Sooner(c, e, f)
  }

  /** r comes from c by freeing directories only. */
  ghost predicate Tracks(c: Cache, gone: seq<nat>, but: Option<nat>, r: Cache) {
    FreedInOrder(c, gone, but, r) && Undisturbed(c, r, None) && Echoes(c, r)
  }

  lemma TracksStart(c: Cache)
    requires Sizes(c)
    ensures Tracks(c, [], None, c)
  {
    hide Sooner, InUse;
  }

  lemma EchoesMore(w: World, c: Cache, r: Cache, d: nat, q: Cache)
    requires Echoes(c, r) && DirFreed(w, r, d, q)
    ensures Echoes(c, q)
  {
    hide DirFreed, Sooner;
    forall e, f | Sooner(q, e, f)
      ensures Sooner(c, e, f)
    {
      SoonerBefore(w, r, d, q, e, f);
    }
  }

  lemma UndisturbedMore(w: World, c: Cache, r: Cache, d: nat, q: Cache)
    requires Undisturbed(c, r, None) && DirFreed(w, r, d, q)
    ensures Undisturbed(c, q, None)
  {
    hide HashOk, FreeOk, InUse, Hash;
    forall t | 0 <= t < NR_TABS && q.tabs[t].pgd.Some?
      ensures q.tabs[t] == c.tabs[t]
    {
      LinkedBefore(w, r, d, q, t);
    }
  }

  /** A table linked after a directory was freed was linked, elsewhere, before. */
  lemma LinkedBefore(w: World, r: Cache, d: nat, q: Cache, t: nat)
    requires DirFreed(w, r, d, q) && t < NR_TABS && q.tabs[t].pgd.Some?
    ensures q.tabs[t] == r.tabs[t] && r.tabs[t].pgd != Some(d)
  {
    hide HashOk, FreeOk, InUse, Hash, PointsTo;
    var e, i := q.tabs[t].pgd.value, q.tabs[t].pdi;
    assert TabOk(w, q, t);
    assert e != d && r.dirs[e] == q.dirs[e];
    assert DirOk(w, r, e) && EntryOk(w, r, e, i);
  }

  lemma TracksFlushed(w: World, c: Cache, d: nat, q: Cache)
    requires DirFreed(w, c, d, q) && InUse(c, d)
    ensures Tracks(c, [], Some(d), q)
  {
    hide InvBut, InUse, Hash, Sooner;
    assert Echoes(c, c);
    EchoesMore(w, c, c, d, q);
    assert Undisturbed(c, c, None);
    UndisturbedMore(w, c, c, d, q);
    hide Undisturbed, Echoes;
  }

  lemma TracksMore(w: World, c: Cache, gone: seq<nat>, but: Option<nat>, r: Cache, v: nat, q: Cache)
    requires Tracks(c, gone, but, r) && DirFreed(w, r, v, q) && InUse(r, v)
    requires Below(Scan(r.htab), |r.dirs|) && Lru(r.dirs, Scan(r.htab)) == Some(v)
    ensures Tracks(c, gone + [v], but, q)
  {
    hide InvBut, InUse, Hash, Sooner, Lru, Scan, Undisturbed;
    EchoesMore(w, c, r, v, q);
    UndisturbedMore(w, c, r, v, q);
    var all := gone + [v];
    assert forall e: nat :: e in all <==> e in gone || e == v;
    forall f: nat | InUse(q, f)
      ensures Sooner(c, v, f)
    {
      LruSooner(w, r, v, f);
    }
    assert forall i, j :: 0 <= i < j < |all| ==> Sooner(c, all[i], all[j]) by {
      assert forall i :: 0 <= i < |gone| ==> gone[i] in gone;
    }
  }

  /** Freeing a directory while no table frame is free yields one exactly if it has a table. */
  lemma FreesTables(w: World, r: Cache, v: nat, q: Cache)
    requires DirFreed(w, r, v, q) && InUse(r, v) && r.freeTabs == []
    ensures q.freeTabs == [] <==> Bare(r, v)
  {
    if q.freeTabs == [] {
      FreesNone(w, r, v, q);
    } else {
      FreesSome(w, r, v, q);
    }
  }

  lemma FreesNone(w: World, r: Cache, v: nat, q: Cache)
    requires DirFreed(w, r, v, q) && InUse(r, v) && r.freeTabs == [] && q.freeTabs == []
    ensures Bare(r, v)
  {
    hide HashOk, FreeOk, InUse, Hash, PointsTo;
    forall i | 0 <= i < NR_ENTRIES
      ensures r.dirs[v].pgt[i].None?
    {
      assert DirOk(w, r, v) && EntryOk(w, r, v, i);
      if r.dirs[v].pgt[i].Some? {
        var t := r.dirs[v].pgt[i].value;
        assert TabOk(w, q, t);
        LinkedBefore(w, r, v, q, t);
      }
    }
  }

  lemma FreesSome(w: World, r: Cache, v: nat, q: Cache)
    requires DirFreed(w, r, v, q) && InUse(r, v) && r.freeTabs == [] && q.freeTabs != []
    ensures !Bare(r, v)
  {
    hide HashOk, FreeOk, InUse, Hash, PointsTo;
    var t := q.freeTabs[0];
    assert t in q.freeTabs && r.tabs[t].pgd == Some(v);
    assert TabOk(w, r, t);
  }

  lemma BareBefore(c: Cache, gone: seq<nat>, but: Option<nat>, r: Cache, v: nat)
    requires Tracks(c, gone, but, r) && InUse(r, v)
    ensures Sizes(c) && Sizes(r) && (Bare(r, v) <==> Bare(c, v))
  {
    hide Sooner, Hash;
  }

  /** The table the clock points at is freed on top. */
  lemma UndisturbedTab(w: World, c: Cache, r: Cache, t: nat)
    requires Undisturbed(c, r, None) && Inv(w, r) && Linked(w, r, t) && r.freeTabs == []
    ensures Undisturbed(c, FreeTab(r, t), Some(t))
  {
    hide InvBut, Hash;
    UseFrame(r, FreeTab(r, t));
    assert r.tabs[t] == c.tabs[t];
    hide InUse;
  }

  lemma FreedTab(w: World, c: Cache, gone: seq<nat>, but: Option<nat>, r: Cache, t: nat)
    requires FreedInOrder(c, gone, but, r) && Linked(w, r, t)
    ensures FreedInOrder(c, gone, but, FreeTab(r, t))
  {
    hide Sooner, Hash;
    UseFrame(r, FreeTab(r, t));
    hide InUse;
  }
}
