/** The property store of lib/of_devtree.c: a bump-allocated arena of eight-byte cells holding
    property records, each with a header, its value, then its name; records of one node are
    linked by position. */
module DevTree {
  import opened Lists

  const CELL: nat := 8
  const HEAD: nat := 16                  // sizeof (struct ofd_prop_s)
  const NUL: char := '\0'

  datatype Header = Header(next: nat, objsz: nat, namesz: nat)

  /** `bytes` is the arena, `top` the first unused cell, `hdrs` the record headers by position and
      `heads` each node's first record. `cells` and `lists` are how far each record extends and
      the records of each node in order. */
  datatype Store = Store(
    bytes: seq<char>,
    num: nat,
    top: nat,
    hdrs: map<nat, Header>,
    cells: map<nat, nat>,
    heads: map<nat, nat>,
    lists: map<nat, seq<nat>>)

  function DataPos(p: nat): nat { CELL * p + HEAD }

  function NamePos(p: nat, h: Header): nat { DataPos(p) + h.objsz }

  function Cells(sz: nat, len: nat): nat { (HEAD + sz + len + CELL - 1) / CELL }

  /** Enough cells for a header, a value and a name, and no cell too many. */
  lemma CellsExact(sz: nat, len: nat)
    ensures var n := Cells(sz, len); CELL * (n - 1) < HEAD + sz + len <= CELL * n
  {
  }

  ghost predicate NoNul(name: seq<char>) { forall i :: 0 <= i < |name| ==> name[i] != NUL }

  function Sub(b: seq<char>, i: int, j: int): seq<char> {
    if 0 <= i <= j <= |b| then b[i..j] else []
  }

  ghost function DataOf(s: Store, p: nat): seq<char> {
    if p in s.hdrs then Sub(s.bytes, DataPos(p), NamePos(p, s.hdrs[p])) else []
  }

  ghost function NameIn(b: seq<char>, p: nat, h: Header): seq<char> {
    Sub(b, NamePos(p, h), NamePos(p, h) + h.namesz - 1)
  }

  ghost function NameOf(s: Store, p: nat): seq<char> {
    if p in s.hdrs then NameIn(s.bytes, p, s.hdrs[p]) else []
  }

  // ---------------------------------------------------------------------------------------------
  // Well-formed stores

  ghost predicate Sized(s: Store) {
    |s.bytes| == CELL * s.num && 1 <= s.top <= s.num && s.hdrs.Keys == s.cells.Keys && s.heads.Keys == s.lists.Keys
  }

  /** A record fits its cells, below the top, and its name is a string with its terminator. */
  ghost predicate RecordOk(s: Store, p: nat)
    requires Sized(s) && p in s.hdrs
  {
    var h := s.hdrs[p];
    && 1 <= p && p + s.cells[p] <= s.top && h.namesz >= 1 && HEAD + h.objsz + h.namesz <= CELL * s.cells[p]
    && NoNul(NameOf(s, p)) && s.bytes[NamePos(p, h) + h.namesz - 1] == NUL
  }

  ghost predicate Apart(s: Store)
    requires Sized(s)
  {
    forall p, q :: p in s.hdrs && q in s.hdrs && p < q ==> p + s.cells[p] <= q
  }

  ghost predicate Blank(s: Store)
    requires Sized(s)
  {
    forall i :: CELL * s.top <= i < CELL * s.num ==> s.bytes[i] == NUL
  }

  ghost function At(l: seq<nat>, i: nat): nat {
    if i < |l| then l[i] else 0
  }

  /** From `head` through the headers runs exactly the list l. */
  ghost predicate Linked(hdrs: map<nat, Header>, head: nat, l: seq<nat>) {
    && head == At(l, 0)
    && forall i :: 0 <= i < |l| ==> l[i] in hdrs && l[i] != 0 && hdrs[l[i]].next == At(l, i + 1)
  }

  ghost predicate ListOk(s: Store, n: nat)
    requires Sized(s) && n in s.lists
  {
    Linked(s.hdrs, s.heads[n], s.lists[n]) && Distinct(s.lists[n])
  }

  ghost predicate Separate(s: Store) {
    forall n, m, p :: n in s.lists && m in s.lists && p in s.lists[n] && p in s.lists[m] ==> n == m
  }

  /** Properties of one node have different names, unless the name is empty. */
  ghost predicate NamesDiffer(s: Store, l: seq<nat>) {
    forall i, j :: 0 <= i < j < |l| ==> NameOf(s, l[i]) != NameOf(s, l[j]) || NameOf(s, l[i]) == []
  }

  ghost predicate Ok(s: Store) {
    && Sized(s) && Apart(s) && Blank(s) && Separate(s)
    && (forall p :: p in s.hdrs ==> RecordOk(s, p))
    && (forall n :: n in s.lists ==> n < s.top)
    && (forall n :: n in s.lists ==> ListOk(s, n) && NamesDiffer(s, s.lists[n]))
  }

  // ---------------------------------------------------------------------------------------------
  // What a store says

  /** The first record of l with this name, or 0. */
  ghost function Seek(s: Store, l: seq<nat>, name: seq<char>): nat {
    if l == [] then 0 else if NameOf(s, l[0]) == name then l[0] else Seek(s, l[1..], name)
  }

  /** ofd_prop_find. */
  ghost function FindIn(s: Store, n: nat, name: seq<char>): nat
    requires n in s.lists
  {
    if name == [] then 0 else Seek(s, s.lists[n], name)
  }

  /** The value of a property. */
  ghost function Value(s: Store, n: nat, name: seq<char>): Option<seq<char>>
    requires n in s.lists
  {
    var p := FindIn(s, n, name);
    if p == 0 then None else Some(DataOf(s, p))
  }

  lemma {:induction false} SeekIn(s: Store, l: seq<nat>, name: seq<char>)
    requires 0 !in l
    ensures var p := Seek(s, l, name);
            if p == 0 then forall i :: 0 <= i < |l| ==> NameOf(s, l[i]) != name
            else p in l && NameOf(s, p) == name
  {
    if l != [] && NameOf(s, l[0]) != name {
      SeekIn(s, l[1..], name);
    }
  }

  /** Stores that agree on the names of l agree on where a name is found. */
  lemma {:induction false} SeekSame(s: Store, r: Store, l: seq<nat>, name: seq<char>)
    requires forall i :: 0 <= i < |l| ==> NameOf(s, l[i]) == NameOf(r, l[i])
    ensures Seek(s, l, name) == Seek(r, l, name)
  {
    if l != [] {
      SeekSame(s, r, l[1..], name);
    }
  }

  lemma {:induction false} SeekAppend(s: Store, l: seq<nat>, p: nat, name: seq<char>)
    requires 0 !in l
    ensures var q := Seek(s, l, name);
            Seek(s, l + [p], name) == if q != 0 then q else if NameOf(s, p) == name then p else 0
  {
    if l == [] {
      assert l + [p] == [p];
    } else {
      assert (l + [p])[0] == l[0] && (l + [p])[1..] == l[1..] + [p];
      SeekAppend(s, l[1..], p, name);
    }
  }

  /** Taking a record out does not hide the others. */
  lemma {:induction false} SeekSkip(s: Store, l: seq<nat>, i: nat, name: seq<char>)
    requires i < |l| && 0 !in l && NameOf(s, l[i]) != name
    ensures Seek(s, l[..i] + l[i + 1..], name) == Seek(s, l, name)
  {
    var k := l[..i] + l[i + 1..];
    if i == 0 {
      assert k == l[1..];
    } else {
      assert k[0] == l[0] && k[1..] == l[1..][..i - 1] + l[1..][i..];
      SeekSkip(s, l[1..], i - 1, name);
    }
  }

  // ---------------------------------------------------------------------------------------------
  // Writing inside one record

  ghost predicate Elsewhere(b: seq<char>, c: seq<char>, lo: nat, hi: nat) {
    |b| == |c| && forall i :: 0 <= i < |b| && !(lo <= i < hi) ==> b[i] == c[i]
  }

  lemma SubSame(b: seq<char>, c: seq<char>, lo: nat, hi: nat, i: int, j: int)
    requires Elsewhere(b, c, lo, hi) && (j <= lo || hi <= i)
    ensures Sub(b, i, j) == Sub(c, i, j)
  {
  }

  /** A record whose cells are not written to, and whose header keeps its sizes. */
  lemma OtherRecord(s: Store, r: Store, lo: nat, hi: nat, q: nat)
    requires Sized(s) && Sized(r) && q in s.hdrs && q in r.hdrs && RecordOk(s, q)
    requires r.cells[q] == s.cells[q] && r.top >= s.top
    requires r.hdrs[q].objsz == s.hdrs[q].objsz && r.hdrs[q].namesz == s.hdrs[q].namesz
    requires Elsewhere(s.bytes, r.bytes, CELL * lo, CELL * hi) && (q + s.cells[q] <= lo || hi <= q)
    ensures RecordOk(r, q) && NameOf(r, q) == NameOf(s, q) && DataOf(r, q) == DataOf(s, q)
  {
    hide NoNul, Sub;
    var h := s.hdrs[q];
    SubSame(s.bytes, r.bytes, CELL * lo, CELL * hi, NamePos(q, h), NamePos(q, h) + h.namesz - 1);
    SubSame(s.bytes, r.bytes, CELL * lo, CELL * hi, DataPos(q), NamePos(q, h));
    assert r.bytes[NamePos(q, h) + h.namesz - 1] == NUL;
  }

  /** ofd_prop_set in place: record p now holds src; nothing outside its cells has changed. */
  ghost predicate Rewritten(s: Store, p: nat, src: seq<char>, r: Store) {
    && Sized(s) && Sized(r) && p in s.hdrs && |src| <= s.hdrs[p].objsz
    && r == s.(bytes := r.bytes, hdrs := s.hdrs[p := s.hdrs[p].(objsz := |src|)])
    && Elsewhere(s.bytes, r.bytes, CELL * p, CELL * (p + s.cells[p]))
    && DataOf(r, p) == src && RecordOk(r, p) && NameOf(r, p) == NameOf(s, p)
  }

  lemma NoRecord(s: Store, q: nat)
    requires q !in s.hdrs
    ensures NameOf(s, q) == DataOf(s, q) == []
  {
  }

  lemma RewriteRecords(s: Store, p: nat, src: seq<char>, r: Store)
    requires Ok(s) && Rewritten(s, p, src, r)
    ensures forall q :: q in r.hdrs ==> RecordOk(r, q)
    ensures forall q: nat :: NameOf(r, q) == NameOf(s, q) && (q != p ==> DataOf(r, q) == DataOf(s, q))
  {
    hide ListOk, NamesDiffer, Separate, RecordOk, NameOf, DataOf, Elsewhere, Blank;
    forall q: nat
      ensures q in r.hdrs ==> RecordOk(r, q)
      ensures NameOf(r, q) == NameOf(s, q) && (q != p ==> DataOf(r, q) == DataOf(s, q))
    {
      if q !in s.hdrs {
        NoRecord(s, q);
        NoRecord(r, q);
      } else if q != p {
        assert RecordOk(s, q);
        OtherRecord(s, r, p, p + s.cells[p], q);
      }
    }
  }

  /** Where names and links stay, so do the lists. */
  lemma SameLists(s: Store, r: Store, n: nat)
    requires Sized(s) && Sized(r) && n in s.lists && n in r.lists && ListOk(s, n) && NamesDiffer(s, s.lists[n])
    requires r.lists[n] == s.lists[n] && r.heads[n] == s.heads[n]
    requires forall p :: p in s.lists[n] && p in s.hdrs ==>
                         p in r.hdrs && r.hdrs[p].next == s.hdrs[p].next && NameOf(r, p) == NameOf(s, p)
    ensures ListOk(r, n) && NamesDiffer(r, r.lists[n])
  {
  }

  lemma RewriteKeeps(s: Store, p: nat, src: seq<char>, r: Store)
    requires Ok(s) && Rewritten(s, p, src, r)
    ensures Ok(r)
  {
    hide RecordOk, NameOf, DataOf, ListOk, NamesDiffer;
    RewriteRecords(s, p, src, r);
    RecordBelow(s, p);
    forall n | n in r.lists
      ensures ListOk(r, n) && NamesDiffer(r, r.lists[n])
    {
      SameLists(s, r, n);
    }
  }

  lemma RecordBelow(s: Store, p: nat)
    requires Ok(s) && p in s.hdrs
    ensures 1 <= p < p + s.cells[p] <= s.top
  {
    assert RecordOk(s, p);
  }

  lemma NoZero(s: Store, n: nat)
    requires Ok(s) && n in s.lists
    ensures 0 !in s.lists[n] && forall p :: p in s.lists[n] ==> p in s.hdrs
  {
  }

  /** Only the value of the rewritten property changes. */
  lemma RewriteValue(s: Store, n: nat, name: seq<char>, src: seq<char>, r: Store, m: nat, x: seq<char>)
    requires Ok(s) && n in s.lists && m in s.lists && FindIn(s, n, name) != 0
    requires Rewritten(s, FindIn(s, n, name), src, r)
    ensures r.lists == s.lists && Value(r, m, x) == if m == n && x == name then Some(src) else Value(s, m, x)
  {
    hide RecordOk, NameOf, DataOf, ListOk, NamesDiffer, Elsewhere;
    var p := FindIn(s, n, name);
    RewriteRecords(s, p, src, r);
    SeekSame(s, r, s.lists[m], x);
    NoZero(s, n);
    NoZero(s, m);
    SeekIn(s, s.lists[n], name);
    SeekIn(s, s.lists[m], x);
  }

  // ---------------------------------------------------------------------------------------------
  // Unlinking a record

  /** ofd_prop_remove of the i-th record of node n. */
  ghost function Unlink(s: Store, n: nat, i: nat): Store
    requires Ok(s) && n in s.lists && i < |s.lists[n]|
  {
    NoZero(s, n);
    var l := s.lists[n];
    var after := s.hdrs[l[i]].next;
    s.(lists := s.lists[n := Cut(l, i)],
       heads := if i == 0 then s.heads[n := after] else s.heads,
       hdrs := if i == 0 then s.hdrs else s.hdrs[l[i - 1] := s.hdrs[l[i - 1]].(next := after)])
  }

  lemma UnlinkRecords(s: Store, n: nat, i: nat)
    requires Ok(s) && n in s.lists && i < |s.lists[n]|
    ensures var r := Unlink(s, n, i);
            && Sized(r) && (forall q :: q in r.hdrs ==> RecordOk(r, q))
            && (forall q: nat :: NameOf(r, q) == NameOf(s, q) && DataOf(r, q) == DataOf(s, q))
  {
    hide ListOk, NamesDiffer, Separate, RecordOk, NameOf, DataOf, Blank, Apart;
    NoZero(s, n);
    var r := Unlink(s, n, i);
    assert Elsewhere(s.bytes, r.bytes, 0, 0);
    forall q: nat
      ensures q in r.hdrs ==> RecordOk(r, q)
      ensures NameOf(r, q) == NameOf(s, q) && DataOf(r, q) == DataOf(s, q)
    {
      if q !in s.hdrs {
        NoRecord(s, q);
        NoRecord(r, q);
      } else {
        assert RecordOk(s, q);
        OtherRecord(s, r, 0, 0, q);
      }
    }
  }

  ghost function Cut(l: seq<nat>, i: nat): (k: seq<nat>)
    requires i < |l|
    ensures |k| == |l| - 1 && forall j :: 0 <= j < |k| ==> k[j] == l[if j < i then j else j + 1]
    ensures forall p :: p in k ==> p in l
  {
    l[..i] + l[i + 1..]
  }

  lemma CutDistinct(l: seq<nat>, i: nat)
    requires Distinct(l) && i < |l|
    ensures Distinct(Cut(l, i))
  {
  }

  lemma CutLinked(hdrs: map<nat, Header>, head: nat, l: seq<nat>, i: nat)
    requires Linked(hdrs, head, l) && Distinct(l) && i < |l|
    ensures i == 0 ==> Linked(hdrs, hdrs[l[0]].next, Cut(l, i))
    ensures i > 0 ==> Linked(hdrs[l[i - 1] := hdrs[l[i - 1]].(next := hdrs[l[i]].next)], head, Cut(l, i))
  {
  }

  lemma CutNames(s: Store, r: Store, l: seq<nat>, i: nat)
    requires NamesDiffer(s, l) && i < |l| && forall q: nat :: NameOf(r, q) == NameOf(s, q)
    ensures NamesDiffer(r, Cut(l, i))
  {
  }

  lemma UnlinkList(s: Store, n: nat, i: nat)
    requires Ok(s) && n in s.lists && i < |s.lists[n]|
    ensures var r := Unlink(s, n, i); Sized(r) && ListOk(r, n) && NamesDiffer(r, r.lists[n])
  {
    hide RecordOk, NameOf, DataOf, Blank, Apart, Separate, NamesDiffer, Linked, Distinct;
    UnlinkRecords(s, n, i);
    NoZero(s, n);
    assert ListOk(s, n) && NamesDiffer(s, s.lists[n]);
    CutDistinct(s.lists[n], i);
    CutLinked(s.hdrs, s.heads[n], s.lists[n], i);
    CutNames(s, Unlink(s, n, i), s.lists[n], i);
  }

  lemma UnlinkSeparate(s: Store, n: nat, i: nat)
    requires Ok(s) && n in s.lists && i < |s.lists[n]|
    ensures Separate(Unlink(s, n, i))
  {
    hide RecordOk, NameOf, DataOf, Blank, Apart, NamesDiffer, ListOk;
    NoZero(s, n);
    var r := Unlink(s, n, i);
    assert forall m, p :: m in r.lists && p in r.lists[m] ==> p in s.lists[m];
  }

  lemma UnlinkOther(s: Store, n: nat, i: nat, m: nat)
    requires Ok(s) && n in s.lists && i < |s.lists[n]| && m in s.lists && m != n
    ensures var r := Unlink(s, n, i); Sized(r) && ListOk(r, m) && NamesDiffer(r, r.lists[m])
  {
    hide RecordOk, NameOf, DataOf, Blank, Apart, NamesDiffer, ListOk, Cut;
    UnlinkRecords(s, n, i);
    NoZero(s, n);
    var l := s.lists[n];
    assert i > 0 ==> l[i - 1] in l;
    SameLists(s, Unlink(s, n, i), m);
  }

  lemma UnlinkKeeps(s: Store, n: nat, i: nat)
    requires Ok(s) && n in s.lists && i < |s.lists[n]|
    ensures Ok(Unlink(s, n, i))
  {
    hide RecordOk, NameOf, DataOf, NamesDiffer, ListOk, Separate, Cut;
    UnlinkRecords(s, n, i);
    UnlinkList(s, n, i);
    UnlinkSeparate(s, n, i);
    NoZero(s, n);
    var r := Unlink(s, n, i);
    forall m | m in r.lists && m != n
      ensures ListOk(r, m) && NamesDiffer(r, r.lists[m])
    {
      UnlinkOther(s, n, i, m);
    }
  }

  /** The unlinked property is gone and no other has changed. */
  lemma UnlinkValue(s: Store, n: nat, i: nat, m: nat, x: seq<char>)
    requires Ok(s) && n in s.lists && i < |s.lists[n]| && m in s.lists && NameOf(s, s.lists[n][i]) != []
    ensures Value(Unlink(s, n, i), m, x) == if m == n && x == NameOf(s, s.lists[n][i]) then None else Value(s, m, x)
  {
    hide RecordOk, NameOf, DataOf, ListOk, Apart, Blank, Separate;
    UnlinkRecords(s, n, i);
    var l, r := s.lists[n], Unlink(s, n, i);
    NoZero(s, n);
    NoZero(s, m);
    SeekSame(s, r, r.lists[m], x);
    if m == n {
      if x == NameOf(s, l[i]) {
        SeekIn(s, Cut(l, i), x);
        assert NamesDiffer(s, l);
      } else {
        SeekSkip(s, l, i, x);
      }
    }
  }

  // ---------------------------------------------------------------------------------------------
  // Appending a record

  /** ofd_prop_create: a new record at the top, last in the list of node n. */
  ghost predicate Extended(s: Store, n: nat, name: seq<char>, src: seq<char>, r: Store) {
    && Ok(s) && Sized(r) && n in s.lists
    && var pos, size, l := s.top, Cells(|src|, |name| + 1), s.lists[n];
    && r.top == pos + size && r.num == s.num
    && Elsewhere(s.bytes, r.bytes, CELL * pos, CELL * (pos + size))
    && r.cells == s.cells[pos := size] && r.lists == s.lists[n := l + [pos]]
    && r.heads == (if l == [] then s.heads[n := pos] else s.heads)
    && (l != [] ==> l[|l| - 1] in s.hdrs)
    && r.hdrs == (if l == [] then s.hdrs else s.hdrs[l[|l| - 1] := s.hdrs[l[|l| - 1]].(next := pos)])
                 [pos := Header(0, |src|, |name| + 1)]
    && DataOf(r, pos) == src && NameOf(r, pos) == name && RecordOk(r, pos)
  }

  lemma ExtendRecords(s: Store, n: nat, name: seq<char>, src: seq<char>, r: Store)
    requires Extended(s, n, name, src, r)
    ensures s.top !in s.hdrs && (forall q :: q in r.hdrs ==> RecordOk(r, q))
    ensures forall q: nat :: q != s.top ==> NameOf(r, q) == NameOf(s, q) && DataOf(r, q) == DataOf(s, q)
  {
    hide ListOk, NamesDiffer, Separate, NameOf, DataOf, Elsewhere, Blank, RecordOk;
    forall q | q in s.hdrs
      ensures q < s.top
    {
      RecordBelow(s, q);
    }
    forall q: nat
      ensures q in r.hdrs ==> RecordOk(r, q)
      ensures q != s.top ==> NameOf(r, q) == NameOf(s, q) && DataOf(r, q) == DataOf(s, q)
    {
      if q !in r.hdrs {
        NoRecord(s, q);
        NoRecord(r, q);
      } else if q != s.top {
        assert RecordOk(s, q);
        RecordBelow(s, q);
        OtherRecord(s, r, s.top, r.top, q);
      }
    }
  }

  lemma AppendLinked(hdrs: map<nat, Header>, head: nat, l: seq<nat>, p: nat, h: Header)
    requires Linked(hdrs, head, l) && Distinct(l) && p !in l && p != 0 && h.next == 0
    ensures Distinct(l + [p])
    ensures l == [] ==> Linked(hdrs[p := h], p, l + [p])
    ensures l != [] ==> var z := l[|l| - 1]; Linked(hdrs[z := hdrs[z].(next := p)][p := h], head, l + [p])
  {
  }

  lemma AppendNames(s: Store, r: Store, l: seq<nat>, p: nat)
    requires NamesDiffer(s, l) && (forall q :: q in l ==> NameOf(r, q) == NameOf(s, q))
    requires NameOf(r, p) == [] || forall i :: 0 <= i < |l| ==> NameOf(s, l[i]) != NameOf(r, p)
    ensures NamesDiffer(r, l + [p])
  {
  }

  lemma ExtendList(s: Store, n: nat, name: seq<char>, src: seq<char>, r: Store)
    requires Extended(s, n, name, src, r) && (name != [] ==> FindIn(s, n, name) == 0)
    ensures ListOk(r, n) && NamesDiffer(r, r.lists[n])
  {
    hide RecordOk, NameOf, DataOf, Blank, Apart, Separate, Elsewhere, NamesDiffer, Linked, Distinct;
    ExtendRecords(s, n, name, src, r);
    NoZero(s, n);
    assert ListOk(s, n) && NamesDiffer(s, s.lists[n]);
    SeekIn(s, s.lists[n], name);
    AppendLinked(s.hdrs, s.heads[n], s.lists[n], s.top, r.hdrs[s.top]);
    AppendNames(s, r, s.lists[n], s.top);
  }

  lemma ExtendKeeps(s: Store, n: nat, name: seq<char>, src: seq<char>, r: Store)
    requires Extended(s, n, name, src, r) && (name != [] ==> FindIn(s, n, name) == 0)
    ensures Ok(r)
  {
    hide RecordOk, NameOf, DataOf, NamesDiffer, ListOk, Apart, Blank, Separate;
    ExtendRecords(s, n, name, src, r);
    ExtendList(s, n, name, src, r);
    ExtendApart(s, n, name, src, r);
    forall m | m in r.lists && m != n
      ensures ListOk(r, m) && NamesDiffer(r, r.lists[m])
    {
      ExtendOther(s, n, name, src, r, m);
    }
  }

  lemma ExtendApart(s: Store, n: nat, name: seq<char>, src: seq<char>, r: Store)
    requires Extended(s, n, name, src, r)
    ensures Apart(r) && Blank(r) && Separate(r)
  {
    hide RecordOk, NameOf, DataOf, NamesDiffer, ListOk;
    ExtendRecords(s, n, name, src, r);
    forall p | p in s.hdrs
      ensures p + s.cells[p] <= s.top
    {
      RecordBelow(s, p);
    }
    forall m | m in s.lists
      ensures s.top !in s.lists[m]
    {
      NoZero(s, m);
    }
  }

  lemma ExtendOther(s: Store, n: nat, name: seq<char>, src: seq<char>, r: Store, m: nat)
    requires Extended(s, n, name, src, r) && m in s.lists && m != n
    ensures ListOk(r, m) && NamesDiffer(r, r.lists[m])
  {
    hide RecordOk, NameOf, DataOf, NamesDiffer, ListOk, Apart, Blank, Elsewhere;
    ExtendRecords(s, n, name, src, r);
    NoZero(s, m);
    var l := s.lists[n];
    assert l != [] ==> l[|l| - 1] in l;
    SameLists(s, r, m);
  }

  /** Only the new property's value changes; an empty name is stored but not found. */
  lemma ExtendValue(s: Store, n: nat, name: seq<char>, src: seq<char>, r: Store, m: nat, x: seq<char>)
    requires Extended(s, n, name, src, r) && (name != [] ==> FindIn(s, n, name) == 0) && m in s.lists
    ensures m in r.lists
    ensures Value(r, m, x) == if m == n && x == name && name != [] then Some(src) else Value(s, m, x)
  {
    hide RecordOk, NameOf, DataOf, NamesDiffer, ListOk, Apart, Blank, Separate, Elsewhere;
    ExtendRecords(s, n, name, src, r);
    NoZero(s, m);
    var l := s.lists[m];
    assert s.top !in l && forall j :: 0 <= j < |l| ==> l[j] in l;
    SeekSame(s, r, l, x);
    SeekIn(s, l, x);
    if m == n {
      SeekAppend(r, l, s.top, x);
    }
  }

  /** A property just created reads back as written exactly when its name is not empty. */
  lemma ReadsBackExactly(s: Store, n: nat, name: seq<char>, src: seq<char>, r: Store)
    requires Extended(s, n, name, src, r) && (name != [] ==> FindIn(s, n, name) == 0)
    ensures n in r.lists && (Value(r, n, name) == Some(src) <==> name != [])
  {
    hide Extended;
    ExtendedNode(s, n, name, src, r);
    ExtendValue(s, n, name, src, r, n, name);
  }

  lemma ExtendedNode(s: Store, n: nat, name: seq<char>, src: seq<char>, r: Store)
    requires Extended(s, n, name, src, r)
    ensures n in s.lists
  {
  }

  // ---------------------------------------------------------------------------------------------
  // Bytes

  function Splice(b: seq<char>, at: nat, src: seq<char>): (r: seq<char>)
    requires at + |src| <= |b|
    ensures |r| == |b|
  {
    b[..at] + src + b[at + |src|..]
  }

  lemma SpliceElsewhere(b: seq<char>, c: seq<char>, at: nat, src: seq<char>, lo: nat, hi: nat)
    requires Elsewhere(b, c, lo, hi) && lo <= at && at + |src| <= hi && at + |src| <= |c|
    ensures Elsewhere(b, Splice(c, at, src), lo, hi)
  {
  }

  /** strncmp over a record's name, terminator included, finds the name. */
  lemma NameMatches(s: Store, p: nat, name: seq<char>)
    requires Sized(s) && p in s.hdrs && RecordOk(s, p)
    ensures var h := s.hdrs[p]; var at := NamePos(p, h);
            at + h.namesz <= |s.bytes| &&
            (|name| + 1 == h.namesz && s.bytes[at..at + h.namesz] == name + [NUL] <==> NameOf(s, p) == name)
  {
    var h := s.hdrs[p];
    var at := NamePos(p, h);
    var stored := NameOf(s, p);
    assert s.bytes[at..at + h.namesz] == stored + [NUL];
    assert (stored + [NUL])[..|stored|] == stored && (name + [NUL])[..|name|] == name;
  }

  lemma CellsEnough(sz: nat, len: nat)
    ensures HEAD + sz + len <= CELL * Cells(sz, len) && (len > 0 ==> Cells(sz, len) >= 3)
  {
  }

  // ---------------------------------------------------------------------------------------------
  // A new node

  ghost predicate NodeAdded(s: Store, size: nat, r: Store) {
    && Ok(s) && Sized(r) && 0 < size
    && r == s.(bytes := r.bytes, top := s.top + size, heads := s.heads[s.top := 0], lists := s.lists[s.top := []])
    && Elsewhere(s.bytes, r.bytes, CELL * s.top, CELL * (s.top + size))
  }

  lemma NodeRecords(s: Store, size: nat, r: Store)
    requires NodeAdded(s, size, r)
    ensures s.top !in s.lists && forall q :: q in r.hdrs ==> RecordOk(r, q)
    ensures forall q: nat :: NameOf(r, q) == NameOf(s, q) && DataOf(r, q) == DataOf(s, q)
  {
    hide ListOk, NamesDiffer, Separate, NameOf, DataOf, Elsewhere, Blank, RecordOk, Apart;
    forall q: nat
      ensures q in r.hdrs ==> RecordOk(r, q)
      ensures NameOf(r, q) == NameOf(s, q) && DataOf(r, q) == DataOf(s, q)
    {
      if q !in s.hdrs {
        NoRecord(s, q);
        NoRecord(r, q);
      } else {
        assert RecordOk(s, q);
        RecordBelow(s, q);
        OtherRecord(s, r, s.top, r.top, q);
      }
    }
  }

  lemma NodeKeeps(s: Store, size: nat, r: Store)
    requires NodeAdded(s, size, r)
    ensures Ok(r)
  {
    hide RecordOk, NameOf, DataOf, NamesDiffer, ListOk;
    NodeRecords(s, size, r);
    forall n | n in r.lists && n != s.top
      ensures ListOk(r, n) && NamesDiffer(r, r.lists[n])
    {
      SameLists(s, r, n);
    }
    EmptyList(r, s.top);
  }

  lemma EmptyList(r: Store, n: nat)
    requires Sized(r) && n in r.lists && r.lists[n] == [] && r.heads[n] == 0
    ensures ListOk(r, n) && NamesDiffer(r, r.lists[n])
  {
  }

  /** A new node has no properties and leaves the others' alone. */
  lemma NodeValue(s: Store, size: nat, r: Store, m: nat, x: seq<char>)
    requires NodeAdded(s, size, r) && m in r.lists
    ensures Value(r, m, x) == if m in s.lists then Value(s, m, x) else None
  {
    hide RecordOk, NameOf, DataOf, NamesDiffer, ListOk, Elsewhere, Apart, Blank, Separate;
    NodeRecords(s, size, r);
    SeekSame(s, r, r.lists[m], x);
  }
}
