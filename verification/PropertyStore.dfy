/** The operations of lib/of_devtree.c on the arena of DevTree: creating, finding, removing and
    setting properties in place. */
module PropertyStore {
  import opened Lists
  import opened DevTree

  const ROOT: nat := 1                   // OFD_ROOT
  const NODE_HEAD: nat := 40             // sizeof (struct ofd_node_s)
  const ARENA_HEAD: nat := 16            // sizeof (struct ofd_mem_s)
  const FAILURE: int := -1

  class Arena {
    const num: nat
    const mem: array<char>
    var top: nat
    var hdrs: map<nat, Header>
    var heads: map<nat, nat>
    ghost var cells: map<nat, nat>
    ghost var lists: map<nat, seq<nat>>

    ghost function View(): Store
      reads this, mem
    {
      Store(mem[..], num, top, hdrs, cells, heads, lists)
    }

    ghost predicate Valid()
      reads this, mem
    {
      Ok(View())
    }

    /** ofd_create on `size` bytes. */
    constructor (size: nat)
      requires size >= 4 * NODE_HEAD
      ensures Valid() && fresh(mem) && lists == map[ROOT := []]
    {
      num := (size - ARENA_HEAD) / CELL;
      mem := new char[CELL * ((size - ARENA_HEAD) / CELL)](_ => NUL);
      hdrs, cells := map[], map[];
      heads, lists := map[ROOT := 0], map[ROOT := []];
      top := ROOT + (NODE_HEAD + 2 + CELL - 1) / CELL;
      new;
      mem[CELL * ROOT + NODE_HEAD] := '/';
      EmptyList(View(), ROOT);
    }

    /** memcpy into the arena. */
    method Copy(at: nat, src: seq<char>)
      requires at + |src| <= mem.Length
      modifies mem
      ensures mem[..] == Splice(old(mem[..]), at, src)
    {
      var i := 0;
      while i < |src|
        invariant 0 <= i <= |src|
        invariant forall j :: 0 <= j < mem.Length ==> mem[j] == if at <= j < at + i then src[j - at] else old(mem[j])
      {
        mem[at + i] := src[i];
        i := i + 1;
      }
    }

    /** ofd_node_create; its place in the tree of nodes is not kept here. */
    method NewNode(path: seq<char>) returns (pos: nat)
      requires Valid()
      modifies this, mem
      ensures Valid() && (pos == 0 <==> old(top) + (|path| + 1 + NODE_HEAD + CELL - 1) / CELL >= num)
      ensures pos == 0 ==> View() == old(View())
      ensures pos != 0 ==> pos !in old(lists) && lists == old(lists)[pos := []]
      ensures forall m, x :: m in lists ==>
                             Value(View(), m, x) == if m in old(lists) then old(Value(View(), m, x)) else None
    {
      hide Ok, Value, Elsewhere;
      ghost var s := View();
      OkFacts(s);
      var size := (|path| + 1 + NODE_HEAD + CELL - 1) / CELL;
      if top + size >= num {
        return 0;
      }
      pos := top;
      SameElsewhere(mem[..], CELL * pos, CELL * (pos + size));
      SpliceElsewhere(mem[..], mem[..], CELL * pos + NODE_HEAD, path + [NUL], CELL * pos, CELL * (pos + size));
      Copy(CELL * pos + NODE_HEAD, path + [NUL]);
      top := top + size;
      heads, lists := heads[pos := 0], lists[pos := []];
      assert NodeAdded(s, size, View());
      NodeKeeps(s, size, View());
      NodeRecords(s, size, View());
      forall m, x | m in lists
        ensures Value(View(), m, x) == if m in s.lists then Value(s, m, x) else None
      {
        NodeValue(s, size, View(), m, x);
      }
    }

    /** ofd_prop_find: follow the node's records. */
    method Find(n: nat, name: seq<char>) returns (p: nat)
      requires Valid() && n in heads
      ensures n in lists && p == FindIn(View(), n, name)
    {
      hide Ok, NameOf, Seek;
      ghost var s := View();
      HeadAt(s, n);
      ghost var l := lists[n];
      if name == [] {
        return 0;
      }
      p := heads[n];
      assert l[0..] == l;
      ghost var i := 0;
      while p != 0
        invariant 0 <= i <= |l| && p == At(l, i)
        invariant Seek(s, l, name) == Seek(s, l[i..], name)
        decreases |l| - i
      {
        LinkAt(s, n, i, name);
        var h := hdrs[p];
        var at := NamePos(p, h);
        if |name| + 1 == h.namesz {
          if mem[at..at + h.namesz] == name + [NUL] {
            break;
          }
        }
        p := h.next;
        i := i + 1;
      }
      SeekEnd(s, n, i, name);
    }

    /** ofd_getprop: the length of the value, and as much of it as the caller has room for. */
    method GetProp(n: nat, name: seq<char>, size: nat) returns (r: int, out: seq<char>)
      requires Valid() && n in heads
      ensures n in lists
      ensures match Value(View(), n, name)
              case None => r == FAILURE && out == []
              case Some(v) => r == |v| && out == v[..if size < |v| then size else |v|]
    {
      hide Ok, Seek, DataOf, NameOf;
      var p := Find(n, name);
      if p == 0 {
        return FAILURE, [];
      }
      ghost var s := View();
      NoZero(s, n);
      SeekIn(s, lists[n], name);
      DataAt(s, p);
      var sz := if size > hdrs[p].objsz then hdrs[p].objsz else size;
      out := mem[DataPos(p)..DataPos(p) + sz];
      r := hdrs[p].objsz;
    }

    /** The bytes of a new record at the top: its pad, its value, its name. */
    method Fill(name: seq<char>, src: seq<char>)
      requires Valid() && NoNul(name) && top + Cells(|src|, |name| + 1) <= num
      modifies mem
      ensures Elsewhere(old(mem[..]), mem[..], CELL * top, CELL * (top + Cells(|src|, |name| + 1)))
      ensures Holds(mem[..], top, src, name)
    {
      hide Ok, Elsewhere, Holds, Splice, NoNul;
      OkFacts(View());
      CellsEnough(|src|, |name| + 1);
      var b, size := mem[..], Cells(|src|, |name| + 1);
      var lo, hi, at := CELL * top, CELL * (top + size), DataPos(top);
      SameElsewhere(b, lo, hi);
      var pad := seq(CELL, _ => NUL);
      SpliceElsewhere(b, b, hi - CELL, pad, lo, hi);
      Copy(hi - CELL, pad);
      ghost var c := mem[..];
      FilledRecord(b, c, top, size, src, name);
      Copy(at, src);
      Copy(at + |src|, name + [NUL]);
    }

    /** ofd_prop_create. */
    method Create(n: nat, name: seq<char>, src: seq<char>) returns (pos: nat)
      requires Valid() && n in heads && NoNul(name)
      modifies this, mem
      ensures pos == 0 <==> old(top) + Cells(|src|, |name| + 1) >= num
      ensures pos == 0 ==> View() == old(View())
      ensures pos != 0 ==> pos == old(top) && Extended(old(View()), n, name, src, View())
    {
      hide Ok, Elsewhere, RecordOk, DataOf, NameOf, NoNul, Holds, Blank;
      ghost var s := View();
      OkFacts(s);
      var size := Cells(|src|, |name| + 1);
      CellsEnough(|src|, |name| + 1);
      if top + size >= num {
        return 0;
      }
      pos := top;
      BlankAbove(s, size);
      Fill(name, src);
      top := top + size;
      Attach(s, n, pos);
      hdrs := hdrs[pos := Header(0, |src|, |name| + 1)];
      cells, lists := cells[pos := size], lists[n := lists[n] + [pos]];
      NewRecord(View(), pos, size, src, name);
    }

    /** The end of ofd_prop_create: the new record follows the last of node n, or is the first. */
    method Attach(ghost s: Store, n: nat, pos: nat)
      requires Ok(s) && n in s.lists && n in heads && s.hdrs == hdrs && s.heads == heads
      modifies `hdrs, `heads
      ensures var l := s.lists[n];
              if l == [] then heads == s.heads[n := pos] && hdrs == s.hdrs
              else && heads == s.heads && l[|l| - 1] in s.hdrs
                   && hdrs == s.hdrs[l[|l| - 1] := s.hdrs[l[|l| - 1]].(next := pos)]
    {
      hide Ok;
      LinkedOf(s, n);
      if heads[n] == 0 {
        heads := heads[n := pos];
      } else {
        var pn := LastOf(s, n);
        hdrs := hdrs[pn := hdrs[pn].(next := pos)];
      }
    }

    /** The walk of ofd_prop_create to the last record of node n. */
    method LastOf(ghost s: Store, n: nat) returns (pn: nat)
      requires Ok(s) && n in s.lists && n in heads && s.hdrs == hdrs && s.heads == heads && heads[n] != 0
      ensures var l := s.lists[n]; l != [] && pn == l[|l| - 1] && pn in hdrs
    {
      hide RecordOk, NamesDiffer, Apart, Blank, Separate, NameOf;
      ghost var l := s.lists[n];
      assert ListOk(s, n);
      pn := heads[n];
      ghost var i := 0;
      while hdrs[pn].next != 0
        invariant 0 <= i < |l| && pn == l[i] && pn in hdrs
        decreases |l| - i
      {
        pn := hdrs[pn].next;
        i := i + 1;
      }
    }

    /** ofd_prop_remove of the i-th record of node n. */
    method Remove(n: nat, p: nat, ghost i: nat)
      requires Valid() && n in heads && n in lists && i < |lists[n]| && p == lists[n][i]
      modifies this
      ensures View() == Unlink(old(View()), n, i)
    {
      hide RecordOk, NamesDiffer, Apart, Blank, Separate, NameOf, Cut;
      ghost var s, l := View(), lists[n];
      NoZero(s, n);
      assert ListOk(s, n);
      if heads[n] == p {
        heads := heads[n := hdrs[p].next];
      } else {
        var pn := heads[n];
        ghost var j := 0;
        while hdrs[pn].next != p
          invariant 0 <= j < i && pn == l[j] && pn in hdrs
          decreases i - j
        {
          assert hdrs[l[j]].next == l[j + 1];
          pn := hdrs[pn].next;
          j := j + 1;
        }
        assert hdrs[l[j]].next == l[j + 1];
        hdrs := hdrs[pn := hdrs[pn].(next := hdrs[p].next)];
      }
      lists := lists[n := Cut(l, i)];
    }

    /** ofd_prop_set where the value fits: it goes in place, and the name moves up behind it. */
    method Reuse(p: nat, name: seq<char>, src: seq<char>)
      requires Valid() && p in hdrs && NameOf(View(), p) == name && |src| <= hdrs[p].objsz
      modifies this, mem
      ensures Rewritten(old(View()), p, src, View())
    {
      hide Ok, Elsewhere, Holds, Splice, RecordOk, DataOf, NameOf, NoNul;
      ghost var s := View();
      OkFacts(s);
      RecordBelow(s, p);
      RecordName(s, p);
      var b, at := mem[..], DataPos(p);
      ghost var size := cells[p];
      SameElsewhere(b, CELL * p, CELL * (p + size));
      FilledRecord(b, b, p, size, src, name);
      Copy(at, src);
      if |src| < hdrs[p].objsz {
        Copy(at + |src|, (name + [NUL])[..hdrs[p].namesz]);
        assert (name + [NUL])[..hdrs[p].namesz] == name + [NUL];
        hdrs := hdrs[p := hdrs[p].(objsz := |src|)];
      } else {
        NameStays(s, p, src);
        SpliceElsewhere(b, b, at, src, CELL * p, CELL * (p + size));
        assert hdrs[p := hdrs[p].(objsz := |src|)] == hdrs;
      }
      NewRecord(View(), p, size, src, name);
    }

    /** ofd_prop_set where the value has grown: the old record is unlinked, then a new one made. */
    method Replace(n: nat, p: nat, name: seq<char>, src: seq<char>) returns (pos: nat)
      requires Valid() && n in heads && n in lists && NoNul(name) && name != [] && p == FindIn(View(), n, name)
      requires p != 0
      modifies this, mem
      ensures Valid() && lists.Keys == old(lists.Keys) && (pos == 0 <==> old(top) + Cells(|src|, |name| + 1) >= num)
      ensures pos != 0 ==> pos in hdrs && hdrs[pos].objsz == |src|
      ensures top == if pos == 0 then old(top) else old(top) + Cells(|src|, |name| + 1)
      ensures forall m, x :: m in lists ==>
                Value(View(), m, x) == if m == n && x == name then (if pos == 0 then None else Some(src))
                                       else old(Value(View(), m, x))
    {
      hide Ok, Elsewhere, RecordOk, DataOf, NameOf, NoNul, Seek, Cut;
      ghost var s := View();
      NoZero(s, n);
      SeekIn(s, lists[n], name);
      ghost var i :| 0 <= i < |lists[n]| && lists[n][i] == p;
      OkFacts(s);
      Remove(n, p, i);
      ghost var u := View();
      UnlinkKeeps(s, n, i);
      OkFacts(u);
      pos := Create(n, name, src);
      ghost var r := View();
      UnlinkValue(s, n, i, n, name);
      if pos != 0 {
        ExtendKeeps(u, n, name, src, r);
      }
      forall m, x | m in s.lists
        ensures Value(r, m, x) == if m == n && x == name then (if pos == 0 then None else Some(src)) else Value(s, m, x)
      {
        UnlinkValue(s, n, i, m, x);
        if pos != 0 {
          ExtendValue(u, n, name, src, r, m, x);
        }
      }
    }

    /** ofd_setprop. It succeeds exactly when the value fits the property's record or the arena
        has room; then the property reads back as written, unless its name is empty. When a
        grown value finds no room, the old one is lost. No other property changes. */
    method SetProp(n: nat, name: seq<char>, src: seq<char>) returns (r: int)
      requires Valid() && n in heads && n in lists && NoNul(name)
      modifies this, mem
      ensures Valid() && lists.Keys == old(lists.Keys)
      ensures r == |src| || r == FAILURE
      ensures r == |src| <==> old(Fitting(View(), n, name, |src|)) || old(top) + Cells(|src|, |name| + 1) < num
      ensures top == if old(Fitting(View(), n, name, |src|)) || r == FAILURE then old(top)
                     else old(top) + Cells(|src|, |name| + 1)
      ensures forall m, x :: m in lists ==>
                Value(View(), m, x) == if m == n && x == name && name != []
                                       then (if r == FAILURE then None else Some(src)) else old(Value(View(), m, x))
    {
      hide Ok, Elsewhere, RecordOk, DataOf, NameOf, NoNul, Seek;
      ghost var s := View();
      OkFacts(s);
      var p := Find(n, name);
      if p == 0 {
        p := Create(n, name, src);
        if p == 0 {
          return FAILURE;
        }
        ghost var q := View();
        ExtendKeeps(s, n, name, src, q);
        forall m, x | m in s.lists
          ensures Value(q, m, x) == if m == n && x == name && name != [] then Some(src) else Value(s, m, x)
        {
          ExtendValue(s, n, name, src, q, m, x);
        }
      } else {
        NoZero(s, n);
        SeekIn(s, lists[n], name);
        if |src| <= hdrs[p].objsz {
          Reuse(p, name, src);
          ghost var q := View();
          RewriteKeeps(s, p, src, q);
          forall m, x | m in s.lists
            ensures Value(q, m, x) == if m == n && x == name then Some(src) else Value(s, m, x)
          {
            RewriteValue(s, n, name, src, q, m, x);
          }
        } else {
          p := Replace(n, p, name, src);
          if p == 0 {
            return FAILURE;
          }
        }
      }
      r := hdrs[p].objsz;
    }
  }

  lemma HeadAt(s: Store, n: nat)
    requires Ok(s) && n in s.heads
    ensures n in s.lists && s.heads[n] == At(s.lists[n], 0)
  {
    hide RecordOk, NamesDiffer, Apart, Blank, Separate, NameOf;
    assert ListOk(s, n);
  }

  /** At the i-th record of a list: its link, its name, and what is left to search. */
  lemma LinkAt(s: Store, n: nat, i: nat, name: seq<char>)
    requires Ok(s) && n in s.lists && i <= |s.lists[n]| && At(s.lists[n], i) != 0
    ensures var l := s.lists[n];
            && i < |l| && l[i] in s.hdrs && s.hdrs[l[i]].next == At(l, i + 1)
            && var h := s.hdrs[l[i]]; var at := NamePos(l[i], h);
               && at + h.namesz <= |s.bytes|
               && (|name| + 1 == h.namesz && s.bytes[at..at + h.namesz] == name + [NUL] <==> NameOf(s, l[i]) == name)
               && Seek(s, l[i..], name) == if NameOf(s, l[i]) == name then l[i] else Seek(s, l[i + 1..], name)
  {
    hide RecordOk, NamesDiffer, Apart, Blank, Separate, NameOf;
    var l := s.lists[n];
    assert ListOk(s, n);
    NameMatches(s, l[i], name);
    assert l[i..][1..] == l[i + 1..];
  }

  lemma SeekEnd(s: Store, n: nat, i: nat, name: seq<char>)
    requires Ok(s) && n in s.lists && i <= |s.lists[n]|
    ensures At(s.lists[n], i) == 0 ==> Seek(s, s.lists[n][i..], name) == 0
  {
    NoZero(s, n);
    hide Ok;
    assert i < |s.lists[n]| ==> s.lists[n][i] in s.lists[n];
  }

  /** The property is there and has room for the value where it is. */
  ghost predicate Fitting(s: Store, n: nat, name: seq<char>, size: nat)
    requires n in s.lists
  {
    var p := FindIn(s, n, name);
    p != 0 && p in s.hdrs && size <= s.hdrs[p].objsz
  }

  /** The name of a record, as measured by its header. */
  lemma RecordName(s: Store, p: nat)
    requires Ok(s) && p in s.hdrs
    ensures var h := s.hdrs[p];
            h.namesz == |NameOf(s, p)| + 1 && NoNul(NameOf(s, p)) && HEAD + h.objsz + h.namesz <= CELL * s.cells[p]
  {
    hide NamesDiffer, Apart, Blank, Separate, ListOk, NoNul;
    assert RecordOk(s, p);
  }

  lemma NameAt(s: Store, p: nat)
    requires Sized(s) && p in s.hdrs && RecordOk(s, p)
    ensures var name, at := NameOf(s, p), NamePos(p, s.hdrs[p]);
            at + |name| < |s.bytes| && Sub(s.bytes, at, at + |name|) == name && s.bytes[at + |name|] == NUL
  {
  }

  lemma RecordIs(s: Store, p: nat)
    requires Ok(s) && p in s.hdrs
    ensures Sized(s) && RecordOk(s, p)
  {
    hide RecordOk;
  }

  /** A value of the same length leaves the name where it is. */
  lemma NameStays(s: Store, p: nat, src: seq<char>)
    requires Ok(s) && p in s.hdrs && |src| == s.hdrs[p].objsz && DataPos(p) + |src| <= |s.bytes|
    ensures Holds(Splice(s.bytes, DataPos(p), src), p, src, NameOf(s, p))
  {
    hide Ok, RecordOk, NameOf, Sub, Splice, Elsewhere;
    RecordIs(s, p);
    NameAt(s, p);
    var b, at := s.bytes, DataPos(p);
    var name, c := NameOf(s, p), Splice(b, at, src);
    SameElsewhere(b, at, at + |src|);
    SpliceElsewhere(b, b, at, src, at, at + |src|);
    SubSame(b, c, at, at + |src|, at + |src|, at + |src| + |name|);
    SpliceRead(b, at, src);
    SpliceRest(b, at, src, at + |src| + |name|);
  }

  lemma SpliceRead(b: seq<char>, at: nat, src: seq<char>)
    requires at + |src| <= |b|
    ensures Sub(Splice(b, at, src), at, at + |src|) == src
  {
  }

  lemma SpliceRest(b: seq<char>, at: nat, src: seq<char>, i: nat)
    requires at + |src| <= i < |b|
    ensures Splice(b, at, src)[i] == b[i]
  {
  }

  /** Value and name stand in record p. */
  ghost predicate Holds(b: seq<char>, p: nat, src: seq<char>, name: seq<char>) {
    var at := DataPos(p) + |src|;
    Sub(b, DataPos(p), at) == src && Sub(b, at, at + |name|) == name && at + |name| < |b| && b[at + |name|] == NUL
  }

  lemma FilledRecord(b: seq<char>, c: seq<char>, p: nat, size: nat, src: seq<char>, name: seq<char>)
    requires Elsewhere(b, c, CELL * p, CELL * (p + size))
    requires HEAD + |src| + |name| + 1 <= CELL * size && CELL * (p + size) <= |c|
    ensures var at := DataPos(p); var d := Splice(Splice(c, at, src), at + |src|, name + [NUL]);
            Elsewhere(b, d, CELL * p, CELL * (p + size)) && Holds(d, p, src, name)
  {
  }

  lemma NewRecord(r: Store, p: nat, size: nat, src: seq<char>, name: seq<char>)
    requires Sized(r) && p in r.hdrs && r.hdrs[p].objsz == |src| && r.hdrs[p].namesz == |name| + 1 && r.cells[p] == size
    requires 1 <= p && p + size <= r.top && HEAD + |src| + |name| + 1 <= CELL * size
    requires NoNul(name) && Holds(r.bytes, p, src, name)
    ensures RecordOk(r, p) && DataOf(r, p) == src && NameOf(r, p) == name
  {
  }

  lemma LinkedOf(s: Store, n: nat)
    requires Ok(s) && n in s.lists
    ensures n in s.heads && (s.heads[n] == 0 <==> s.lists[n] == [])
  {
  }

  lemma DataAt(s: Store, p: nat)
    requires Ok(s) && p in s.hdrs
    ensures var at, n := DataPos(p), s.hdrs[p].objsz;
            && at + n <= |s.bytes| && |DataOf(s, p)| == n
            && forall k :: 0 <= k <= n ==> DataOf(s, p)[..k] == s.bytes[at..at + k]
  {
    hide NamesDiffer, Apart, Blank, Separate, ListOk, NoNul;
    assert RecordOk(s, p);
  }

  lemma OkFacts(s: Store)
    requires Ok(s)
    ensures Sized(s) && Blank(s) && forall n :: n in s.lists ==> n < s.top
  {
  }

  /** The cells a new record takes are still zero, as ofd_prop_create asserts. */
  lemma BlankAbove(s: Store, size: nat)
    requires Ok(s) && s.top + size <= s.num
    ensures |s.bytes| == CELL * s.num && forall i :: CELL * s.top <= i < CELL * (s.top + size) ==> s.bytes[i] == NUL
  {
  }

  lemma SameElsewhere(b: seq<char>, lo: nat, hi: nat)
    ensures Elsewhere(b, b, lo, hi)
  {
  }
}
