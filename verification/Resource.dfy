/** The resource tree of hype/resource.c: granting, marking for rescind, and cleaning up.

    A resource is identified by its cookie, which insert_resource draws from a growing counter, so
    a resource granted from another one has the larger identity.  Each hypervisor call is one
    atomic step. */
module Resource {
  import opened Lists

  type Id = nat
  type Os = nat

  /** All resources: struct sys_resource field by field, and the po_resources list of each
      partition. `enabled` holds the resources whose LCI_DISABLED flag is clear. */
  datatype Table = Table(
    parent: map<Id, Option<Id>>,
    children: map<Id, seq<Id>>,
    owner: map<Id, Os>,
    rescinded: set<Id>,
    mapped: set<Id>,
    enabled: set<Id>,
    held: map<Os, seq<Id>>)

  ghost predicate Sorted(list: seq<Id>) {
    forall i, j :: 0 <= i < j < |list| ==> list[i] < list[j]
  }

  ghost predicate Keys(t: Table) {
    t.parent.Keys == t.children.Keys == t.owner.Keys && t.rescinded <= t.owner.Keys
  }

  /** c hangs off p in the tree. */
  ghost predicate Link(t: Table, p: Id, c: Id) {
    p in t.children && c in t.children[p]
  }

  /** Child lists and parent pointers agree, parents are older, and a rescinded resource has
      neither children nor a place in a child list. */
  ghost predicate Wf(t: Table) {
    && Keys(t)
    && (forall p :: p in t.children ==> Distinct(t.children[p]))
    && (forall p, c :: Link(t, p, c) ==> c in t.owner && c !in t.rescinded && p < c && t.parent[c] == Some(p))
    && (forall p :: p in t.rescinded ==> t.children[p] == [])
    && (forall c :: c in t.owner && c !in t.rescinded && t.parent[c].Some? ==> Link(t, t.parent[c].value, c))
  }

  /** r descends from a, through resources none of which is owned by `avoid`. */
  ghost predicate Desc(t: Table, a: Id, r: Id, avoid: Option<Os>)
    requires Keys(t)
    decreases r
  {
    r == a ||
    (r in t.owner && t.parent[r].Some? && t.parent[r].value < r
     && Link(t, t.parent[r].value, r) && Some(t.owner[r]) != avoid
     && Desc(t, a, t.parent[r].value, avoid))
  }

  // ---------------------------------------------------------------------------------------------
  // Emptying one child list

  /** The children that get marked: those not owned by `avoid` and not marked yet. */
  function Kids(t: Table, list: seq<Id>, avoid: Option<Os>): seq<Id>
    requires forall c :: c in list ==> c in t.owner
  {
    if list == [] then []
    else
      var c := list[0];
      (if Some(t.owner[c]) != avoid && c !in t.rescinded then [c] else []) + Kids(t, list[1..], avoid)
  }

  lemma {:induction false} KidsMember(t: Table, list: seq<Id>, avoid: Option<Os>)
    requires forall c :: c in list ==> c in t.owner
    ensures forall c :: c in Kids(t, list, avoid) <==> c in list && Some(t.owner[c]) != avoid && c !in t.rescinded
    ensures Distinct(list) ==> Distinct(Kids(t, list, avoid))
  {
    if list != [] {
      KidsMember(t, list[1..], avoid);
    }
  }

  lemma {:induction false} KidsAppend(t: Table, list: seq<Id>, c: Id, avoid: Option<Os>)
    requires c in t.owner && forall d :: d in list ==> d in t.owner
    ensures Kids(t, list + [c], avoid) ==
            Kids(t, list, avoid) + if Some(t.owner[c]) != avoid && c !in t.rescinded then [c] else []
  {
    var longer := list + [c];
    assert longer[0] == if list == [] then c else list[0];
    if list == [] {
      assert longer[1..] == [];
    } else {
      KidsAppend(t, list[1..], c, avoid);
      assert longer[1..] == list[1..] + [c];
    }
  }

  ghost predicate Strippable(t: Table, sr: Id) {
    Keys(t) && sr in t.children && Distinct(t.children[sr]) && forall c :: c in t.children[sr] ==> c in t.owner
  }

  /** The table after the first k children of sr have been taken off. */
  ghost function StripPart(t: Table, sr: Id, k: nat, avoid: Option<Os>): Table
    requires Strippable(t, sr) && k <= |t.children[sr]|
  {
    var gone := t.children[sr][..k];
    var kids := Kids(t, gone, avoid);
    t.(parent := map c | c in t.parent :: if c in gone then None else t.parent[c],
       children := t.children[sr := t.children[sr][k..]],
       rescinded := t.rescinded + (set c | c in kids),
       enabled := t.enabled - (set c | c in kids && c in t.mapped))
  }

  /** The table after the child list of sr has been emptied. */
  ghost function Strip(t: Table, sr: Id, avoid: Option<Os>): Table
    requires Strippable(t, sr)
  {
    StripPart(t, sr, |t.children[sr]|, avoid)
  }

  /** Whether the next child gets marked. */
  ghost predicate Marks(t: Table, c: Id, avoid: Option<Os>) {
    c in t.owner && Some(t.owner[c]) != avoid && c !in t.rescinded
  }

  lemma NextKid(t: Table, sr: Id, k: nat, avoid: Option<Os>)
    requires Strippable(t, sr) && k < |t.children[sr]|
    ensures var list, c := t.children[sr], t.children[sr][k];
            && Kids(t, list[..k + 1], avoid) == Kids(t, list[..k], avoid) + (if Marks(t, c, avoid) then [c] else [])
            && c !in Kids(t, list[..k], avoid) && c !in list[..k] && list[..k + 1] == list[..k] + [c]
  {
    var list, c := t.children[sr], t.children[sr][k];
    assert list[..k + 1] == list[..k] + [c];
    KidsAppend(t, list[..k], c, avoid);
    KidsMember(t, list[..k], avoid);
    assert c !in list[..k];
  }

  lemma StripNextMarks(t: Table, sr: Id, k: nat, avoid: Option<Os>)
    requires Strippable(t, sr) && k < |t.children[sr]|
    ensures var u, v, c := StripPart(t, sr, k, avoid), StripPart(t, sr, k + 1, avoid), t.children[sr][k];
            && (Marks(u, c, avoid) <==> Marks(t, c, avoid))
            && v.rescinded == (if Marks(t, c, avoid) then u.rescinded + {c} else u.rescinded)
            && v.enabled == (if Marks(t, c, avoid) && c in t.mapped then u.enabled - {c} else u.enabled)
  {
    hide Kids;
    NextKid(t, sr, k, avoid);
  }

  lemma StripNextLinks(t: Table, sr: Id, k: nat, avoid: Option<Os>)
    requires Strippable(t, sr) && k < |t.children[sr]|
    ensures var u, v, c := StripPart(t, sr, k, avoid), StripPart(t, sr, k + 1, avoid), t.children[sr][k];
            && v == u.(parent := u.parent[c := None], children := u.children[sr := u.children[sr][1..]],
                       rescinded := v.rescinded, enabled := v.enabled)
            && u.children[sr] == t.children[sr][k..] && u.owner == t.owner && u.mapped == t.mapped
  {
  }

  // ---------------------------------------------------------------------------------------------
  // The breadth-first walk

  lemma {:induction false} WithoutSorted(list: seq<Id>, x: Id)
    requires Sorted(list)
    ensures Sorted(Without(list, x))
  {
    if list != [] {
      var rest := Without(list[1..], x);
      WithoutSorted(list[1..], x);
      assert forall j :: 0 <= j < |rest| ==> rest[j] in rest;
    }
  }

  /** The table once `start` is marked and off its parent's child list. */
  ghost function Cut(t: Table, start: Id): Table
    requires Keys(t) && start in t.owner
  {
    var p := t.parent[start];
    t.(children := if p.Some? && p.value in t.children
                   then t.children[p.value := Without(t.children[p.value], start)] else t.children,
       rescinded := t.rescinded + {start},
       enabled := if start in t.mapped then t.enabled - {start} else t.enabled)
  }

  ghost function SetOf(s: seq<Id>): set<Id> {
    set x | x in s
  }

  ghost predicate LinkedFrom(t: Table, q: seq<Id>, i: nat, c: Id) {
    exists h :: 0 <= h < i && h < |q| && Link(t, q[h], c)
  }

  /** Every node of the queue but the first was reached from one already walked. */
  ghost predicate Reached(t: Table, q: seq<Id>, i: nat, avoid: Option<Os>)
    requires Keys(t)
  {
    forall j :: 0 < j < |q| ==>
                  && q[j] in t.owner && Some(t.owner[q[j]]) != avoid
                  && LinkedFrom(t, q, if i < j then i else j, q[j])
  }

  ghost predicate Covered(t: Table, q: seq<Id>, i: nat, avoid: Option<Os>)
    requires Keys(t)
  {
    forall c :: c in t.owner && LinkedFrom(t, q, i, c) ==> Some(t.owner[c]) == avoid || c in q
  }

  ghost predicate Queue(t: Table, start: Id, q: seq<Id>, i: nat) {
    && i <= |q| && q != [] && q[0] == start && Distinct(q)
    && forall x :: x in q ==> x in t.owner && x !in t.rescinded && start <= x
  }

  ghost predicate StrippedMarks(t: Table, q: seq<Id>, r: Table) {
    && r == Table(r.parent, r.children, t.owner, t.rescinded + SetOf(q), t.mapped,
                  t.enabled - (SetOf(q) * t.mapped), t.held)
    && r.parent.Keys == r.children.Keys == t.owner.Keys
  }

  ghost predicate StrippedLists(t: Table, start: Id, q: seq<Id>, i: nat, r: Table)
    requires Keys(t) && start in t.owner && i <= |q|
  {
    r.children.Keys == t.children.Keys &&
    forall p :: p in r.children ==> r.children[p] == if p in q[..i] then [] else Cut(t, start).children[p]
  }

  ghost predicate StrippedParents(t: Table, q: seq<Id>, i: nat, r: Table)
    requires Keys(t)
  {
    r.parent.Keys == t.parent.Keys &&
    forall c :: c in r.parent ==> r.parent[c] == if LinkedFrom(t, q, i, c) then None else t.parent[c]
  }

  /** The table while the first i nodes of the queue have been walked. */
  ghost predicate Stripped(t: Table, start: Id, q: seq<Id>, i: nat, r: Table)
    requires Keys(t) && start in t.owner && i <= |q|
  {
    StrippedMarks(t, q, r) && StrippedLists(t, start, q, i, r) && StrippedParents(t, q, i, r)
  }

  ghost predicate Walking(t: Table, start: Id, avoid: Option<Os>, r: Table, q: seq<Id>, i: nat) {
    Wf(t) && Queue(t, start, q, i) && Reached(t, q, i, avoid) && Covered(t, q, i, avoid) && Stripped(t, start, q, i, r)
  }

  lemma WalkStarts(t: Table, start: Id, avoid: Option<Os>)
    requires Wf(t) && start in t.owner && start !in t.rescinded
    ensures Walking(t, start, avoid, Cut(t, start), [start], 0)
  {
  }

  /** A child of a node still to be walked is not in the queue: its parent would have been walked. */
  lemma NotQueued(t: Table, start: Id, avoid: Option<Os>, q: seq<Id>, i: nat, c: Id)
    requires Wf(t) && Queue(t, start, q, i) && Reached(t, q, i, avoid) && i < |q| && Link(t, q[i], c)
    ensures c !in q
  {
  }

  /** The node next in line still has all its children, and none of them is in the queue. */
  lemma WalkNext(t: Table, start: Id, avoid: Option<Os>, r: Table, q: seq<Id>, i: nat)
    requires Walking(t, start, avoid, r, q, i) && i < |q|
    ensures Keys(r) && r.children[q[i]] == t.children[q[i]] && Strippable(r, q[i])
    ensures forall c :: c in t.children[q[i]] ==>
                        c in t.owner && c !in q && c !in r.rescinded && start < c && Link(t, q[i], c)
  {
    var sr := q[i];
    assert sr in q && sr !in q[..i];
    assert t.parent[start].Some? ==> Link(t, t.parent[start].value, start);
    forall c | c in t.children[sr]
      ensures c in t.owner && c !in q && c !in r.rescinded && start < c && Link(t, sr, c)
    {
      assert Link(t, sr, c);
      NotQueued(t, start, avoid, q, i, c);
    }
  }

  lemma DistinctConcat(a: seq<Id>, b: seq<Id>)
    requires Distinct(a) && Distinct(b) && forall x :: x in a ==> x !in b
    ensures Distinct(a + b)
  {
    forall i, j | 0 <= i < j < |a + b|
      ensures (a + b)[i] != (a + b)[j]
    {
      if i < |a| <= j {
        assert a[i] in a && b[j - |a|] in b;
      }
    }
  }

  /** What emptying a child list changes. */
  lemma StripFacts(r: Table, sr: Id, avoid: Option<Os>, kids: seq<Id>)
    requires Strippable(r, sr) && kids == Kids(r, r.children[sr], avoid)
    ensures var v := Strip(r, sr, avoid);
            && v == Table(v.parent, r.children[sr := []], r.owner, r.rescinded + SetOf(kids), r.mapped,
                          r.enabled - (SetOf(kids) * r.mapped), r.held)
            && v.parent.Keys == r.parent.Keys
            && forall c :: c in r.parent ==> v.parent[c] == if c in r.children[sr] then None else r.parent[c]
  {
    hide Kids;
    assert r.children[sr][..|r.children[sr]|] == r.children[sr] && r.children[sr][|r.children[sr]|..] == [];
    assert (set c | c in kids) == SetOf(kids);
    assert (set c | c in kids && c in r.mapped) == SetOf(kids) * r.mapped;
  }

  /** Adding nodes to the queue does not change who was walked. */
  lemma LinkedFromGrows(t: Table, q: seq<Id>, kids: seq<Id>, i: nat, c: Id)
    requires i < |q|
    ensures LinkedFrom(t, q + kids, i, c) <==> LinkedFrom(t, q, i, c)
    ensures LinkedFrom(t, q + kids, i + 1, c) <==> LinkedFrom(t, q, i, c) || Link(t, q[i], c)
  {
    if h :| 0 <= h < i && Link(t, q[h], c) {
      assert (q + kids)[h] == q[h];
    }
    assert (q + kids)[i] == q[i];
  }

  lemma StepQueue(t: Table, start: Id, avoid: Option<Os>, r: Table, q: seq<Id>, i: nat, kids: seq<Id>)
    requires Walking(t, start, avoid, r, q, i) && i < |q| && Strippable(r, q[i])
    requires kids == Kids(r, r.children[q[i]], avoid)
    ensures Queue(t, start, q + kids, i + 1)
    ensures forall c :: c in kids <==> c in t.children[q[i]] && c in t.owner && Some(t.owner[c]) != avoid
  {
    hide Kids, Cut, Reached, Covered, LinkedFrom, Wf, Distinct;
    WalkNext(t, start, avoid, r, q, i);
    KidsMember(r, r.children[q[i]], avoid);
    DistinctConcat(q, kids);
  }

  lemma StepReached(t: Table, q: seq<Id>, i: nat, avoid: Option<Os>, kids: seq<Id>)
    requires Keys(t) && i < |q| && Reached(t, q, i, avoid)
    requires forall c :: c in kids ==> c in t.owner && Link(t, q[i], c) && Some(t.owner[c]) != avoid
    ensures Reached(t, q + kids, i + 1, avoid)
  {
    forall j | 0 < j < |q + kids|
      ensures LinkedFrom(t, q + kids, if i + 1 < j then i + 1 else j, (q + kids)[j])
    {
      var c := (q + kids)[j];
      if j < |q| {
        var h :| 0 <= h < (if i < j then i else j) && h < |q| && Link(t, q[h], c);
        assert (q + kids)[h] == q[h];
      } else {
        assert c == kids[j - |q|] && (q + kids)[i] == q[i];
      }
    }
  }

  lemma StepCovered(t: Table, q: seq<Id>, i: nat, avoid: Option<Os>, kids: seq<Id>)
    requires Keys(t) && i < |q| && Covered(t, q, i, avoid)
    requires forall c :: Link(t, q[i], c) && c in t.owner ==> Some(t.owner[c]) == avoid || c in kids
    ensures Covered(t, q + kids, i + 1, avoid)
  {
  }

  lemma StepMarks(t: Table, q: seq<Id>, kids: seq<Id>, r: Table, v: Table)
    requires StrippedMarks(t, q, r) && v.parent.Keys == r.parent.Keys && v.children.Keys == r.children.Keys
    requires v == Table(v.parent, v.children, r.owner, r.rescinded + SetOf(kids), r.mapped,
                        r.enabled - (SetOf(kids) * r.mapped), r.held)
    ensures StrippedMarks(t, q + kids, v)
  {
  }

  lemma StepLists(t: Table, start: Id, q: seq<Id>, kids: seq<Id>, i: nat, r: Table, v: Table)
    requires Keys(t) && start in t.owner && i < |q| && StrippedLists(t, start, q, i, r)
    requires q[i] in t.children && v.children == r.children[q[i] := []]
    ensures StrippedLists(t, start, q + kids, i + 1, v)
  {
    hide Cut;
    assert (q + kids)[..i + 1] == q[..i] + [q[i]];
    assert v.children.Keys == r.children.Keys;
  }

  lemma StepParents(t: Table, q: seq<Id>, kids: seq<Id>, i: nat, r: Table, v: Table)
    requires Keys(t) && i < |q| && StrippedParents(t, q, i, r) && v.parent.Keys == r.parent.Keys
    requires forall c :: c in r.parent ==> v.parent[c] == if Link(t, q[i], c) then None else r.parent[c]
    ensures StrippedParents(t, q + kids, i + 1, v)
  {
    forall c | c in v.parent
      ensures v.parent[c] == if LinkedFrom(t, q + kids, i + 1, c) then None else t.parent[c]
    {
      LinkedFromGrows(t, q, kids, i, c);
    }
  }

  lemma StepStripped(t: Table, start: Id, avoid: Option<Os>, r: Table, q: seq<Id>, i: nat, kids: seq<Id>)
    requires Keys(t) && Walking(t, start, avoid, r, q, i) && i < |q| && Strippable(r, q[i])
    requires kids == Kids(r, r.children[q[i]], avoid)
    ensures Stripped(t, start, q + kids, i + 1, Strip(r, q[i], avoid))
  {
    hide Kids, Reached, Covered, Wf, Distinct, Strip, StrippedMarks, StrippedLists, StrippedParents;
    WalkNext(t, start, avoid, r, q, i);
    StripFacts(r, q[i], avoid, kids);
    var v := Strip(r, q[i], avoid);
    assert q[i] in q;
    StepMarks(t, q, kids, r, v);
    StepLists(t, start, q, kids, i, r, v);
    StepParents(t, q, kids, i, r, v);
  }

  /** One round of the outer loop. */
  lemma WalkStep(t: Table, start: Id, avoid: Option<Os>, r: Table, q: seq<Id>, i: nat)
    requires Walking(t, start, avoid, r, q, i) && i < |q| && Strippable(r, q[i])
    ensures Walking(t, start, avoid, Strip(r, q[i], avoid), q + Kids(r, r.children[q[i]], avoid), i + 1)
  {
    var kids := Kids(r, r.children[q[i]], avoid);
    WalkNext(t, start, avoid, r, q, i);
    StepQueue(t, start, avoid, r, q, i, kids);
    StepReached(t, q, i, avoid, kids);
    StepCovered(t, q, i, avoid, kids);
    StepStripped(t, start, avoid, r, q, i, kids);
  }

  // ---------------------------------------------------------------------------------------------
  // What the finished walk has marked

  lemma {:induction false} QueueDescends(t: Table, start: Id, avoid: Option<Os>, q: seq<Id>, i: nat, j: nat)
    requires Wf(t) && Queue(t, start, q, i) && Reached(t, q, i, avoid) && j < |q|
    ensures Desc(t, start, q[j], avoid)
    decreases j
  {
    if j > 0 {
      assert LinkedFrom(t, q, if i < j then i else j, q[j]);
      var h :| 0 <= h < j && Link(t, q[h], q[j]);
      QueueDescends(t, start, avoid, q, i, h);
    }
  }

  lemma {:induction false} DescendantQueued(t: Table, start: Id, avoid: Option<Os>, q: seq<Id>, x: Id)
    requires Wf(t) && Queue(t, start, q, |q|) && Covered(t, q, |q|, avoid) && Desc(t, start, x, avoid)
    ensures x in q
    decreases x
  {
    if x != start {
      var p := t.parent[x].value;
      DescendantQueued(t, start, avoid, q, p);
      var h :| 0 <= h < |q| && q[h] == p;
      assert LinkedFrom(t, q, |q|, x);
    }
  }

  /** Every node of the list but the first comes after its parent. */
  ghost predicate ParentsFirst(t: Table, q: seq<Id>) {
    forall j :: 0 < j < |q| ==> LinkedFrom(t, q, j, q[j])
  }

  /** start and its descendants (short of those owned by `avoid`) are marked, and nothing else;
      their translations are off and their child lists empty; the rest of the tree is as it was. */
  ghost predicate Rescinds(t: Table, start: Id, avoid: Option<Os>, r: Table, q: seq<Id>) {
    && Wf(t) && Wf(r) && start in t.owner
    && q != [] && q[0] == start && Distinct(q) && ParentsFirst(t, q)
    && (forall x :: x in q <==> Desc(t, start, x, avoid))
    && (forall x :: x in q ==> x in t.owner && x !in t.rescinded)
    && Stripped(t, start, q, |q|, r)
  }

  lemma WalkLinks(t: Table, start: Id, avoid: Option<Os>, r: Table, q: seq<Id>, p: Id, c: Id)
    requires Walking(t, start, avoid, r, q, |q|) && Link(r, p, c)
    ensures Link(t, p, c) && c in r.owner && c !in r.rescinded && p < c && c in r.parent && r.parent[c] == Some(p)
  {
    hide Covered, Reached, StrippedMarks;
    assert q[..|q|] == q;
    assert t.parent[start].Some? ==> Link(t, t.parent[start].value, start);
    assert Link(t, p, c) && p !in q && c != start;
    OrphanOutside(t, start, avoid, q, p, c);
    assert StrippedMarks(t, q, r);
    WalkRescinded(t, start, avoid, r, q, c);
  }

  lemma WalkRescinded(t: Table, start: Id, avoid: Option<Os>, r: Table, q: seq<Id>, c: Id)
    requires Walking(t, start, avoid, r, q, |q|)
    ensures c in r.rescinded <==> c in t.rescinded || c in q
    ensures r.owner == t.owner
  {
  }

  lemma WalkParents(t: Table, start: Id, avoid: Option<Os>, r: Table, q: seq<Id>, c: Id)
    requires Walking(t, start, avoid, r, q, |q|) && c in r.owner && c !in r.rescinded && c in r.parent
    requires r.parent[c].Some?
    ensures Link(r, r.parent[c].value, c)
  {
    hide Covered, Reached, StrippedMarks;
    WalkRescinded(t, start, avoid, r, q, c);
    var p := r.parent[c].value;
    assert q[..|q|] == q;
    assert Link(t, p, c);
    assert forall h :: 0 <= h < |q| ==> !Link(t, q[h], c);
    assert start in q;
  }

  lemma WalkBasics(t: Table, start: Id, avoid: Option<Os>, r: Table, q: seq<Id>)
    requires Walking(t, start, avoid, r, q, |q|)
    ensures Keys(r)
    ensures forall p :: p in r.children ==> Distinct(r.children[p])
    ensures forall p :: p in r.rescinded ==> r.children[p] == []
  {
    hide Covered, Reached, StrippedParents, Cut, Distinct;
    assert q[..|q|] == q;
    CutLists(t, start);
    NoneDistinct([]);
  }

  lemma NoneDistinct(list: seq<Id>)
    requires list == []
    ensures Distinct(list)
  {
  }

  /** Taking the start off its parent's list leaves lists without repetition, and empty ones empty. */
  lemma CutLists(t: Table, start: Id)
    requires Wf(t) && start in t.owner
    ensures var r := Cut(t, start);
            && r.children.Keys == t.children.Keys
            && (forall p :: p in r.children ==> Distinct(r.children[p]))
            && (forall p :: p in t.rescinded ==> r.children[p] == [])
  {
    if t.parent[start].Some? && t.parent[start].value in t.children {
      WithoutDistinct(t.children[t.parent[start].value], start);
    }
    hide Distinct;
  }

  lemma WalkWf(t: Table, start: Id, avoid: Option<Os>, r: Table, q: seq<Id>)
    requires Walking(t, start, avoid, r, q, |q|)
    ensures Wf(r)
  {
    hide Covered, Reached, Stripped, Distinct, Queue;
    WalkBasics(t, start, avoid, r, q);
    forall p, c | Link(r, p, c)
      ensures c in r.owner && c !in r.rescinded && p < c && r.parent[c] == Some(p)
    {
      WalkLinks(t, start, avoid, r, q, p, c);
    }
    forall c | c in r.owner && c !in r.rescinded && r.parent[c].Some?
      ensures Link(r, r.parent[c].value, c)
    {
      WalkParents(t, start, avoid, r, q, c);
    }
  }

  /** A resource whose parent is not in the queue is not in it either, unless it is the start. */
  lemma OrphanOutside(t: Table, start: Id, avoid: Option<Os>, q: seq<Id>, p: Id, c: Id)
    requires Wf(t) && Queue(t, start, q, |q|) && Reached(t, q, |q|, avoid) && Link(t, p, c) && p !in q && c != start
    ensures c !in q && !LinkedFrom(t, q, |q|, c)
  {
  }

  lemma WalkEnds(t: Table, start: Id, avoid: Option<Os>, r: Table, q: seq<Id>)
    requires Walking(t, start, avoid, r, q, |q|)
    ensures Rescinds(t, start, avoid, r, q)
  {
    hide Stripped, Covered, Desc;
    WalkWf(t, start, avoid, r, q);
    forall x
      ensures x in q <==> Desc(t, start, x, avoid)
    {
      if x in q {
        var j :| 0 <= j < |q| && q[j] == x;
        QueueDescends(t, start, avoid, q, |q|, j);
      }
      if Desc(t, start, x, avoid) {
        DescendantQueued(t, start, avoid, q, x);
      }
    }
  }

  // ---------------------------------------------------------------------------------------------
  // Death of a partition

  /** The list of a partition's resources is in order of creation and holds all that are not
      rescinded. */
  ghost predicate Holds(t: Table, os: Os, list: seq<Id>) {
    && Sorted(list)
    && (forall r :: r in list ==> r in t.owner && t.owner[r] == os)
    && (forall r :: r in t.owner && t.owner[r] == os && r !in t.rescinded ==> r in list)
  }

  /** Reached from one of the first k listed resources without passing another of the partition's. */
  ghost predicate MarkedBy(t: Table, os: Os, list: seq<Id>, k: nat, x: Id)
    requires Keys(t)
  {
    exists j :: 0 <= j < k && j < |list| && list[j] !in t.rescinded && Desc(t, list[j], x, Some(os))
  }

  /** Held by the partition, or descended from something it held. */
  ghost predicate Doomed(t: Table, list: seq<Id>, x: Id)
    requires Keys(t)
  {
    exists a :: a in list && a !in t.rescinded && Desc(t, a, x, None)
  }

  lemma {:induction false} DescOlder(t: Table, a: Id, x: Id, avoid: Option<Os>)
    requires Keys(t) && Desc(t, a, x, avoid)
    ensures a <= x && (x == a || (x in t.owner && t.parent[x].Some? && Desc(t, a, t.parent[x].value, avoid)))
    decreases x
  {
    if x != a {
      DescOlder(t, a, t.parent[x].value, avoid);
    }
  }

  /** There is only one nearest ancestor owned by the partition. */
  lemma {:induction false} NearestUnique(t: Table, os: Os, a: Id, b: Id, x: Id)
    requires Keys(t) && a in t.owner && b in t.owner && t.owner[a] == t.owner[b] == os
    requires Desc(t, a, x, Some(os)) && Desc(t, b, x, Some(os))
    ensures a == b
    decreases x
  {
    if x != a && x != b {
      NearestUnique(t, os, a, b, t.parent[x].value);
    }
  }

  lemma {:induction false} NearestExists(t: Table, os: Os, a: Id, x: Id) returns (b: Id)
    requires Wf(t) && a in t.owner && t.owner[a] == os && a !in t.rescinded && Desc(t, a, x, None)
    ensures b in t.owner && t.owner[b] == os && b !in t.rescinded && b <= x && Desc(t, b, x, Some(os))
    decreases x
  {
    if x == a {
      b := a;
    } else if t.owner[x] == os {
      b := x;
    } else {
      b := NearestExists(t, os, a, t.parent[x].value);
    }
  }

  lemma {:induction false} AvoidWeakens(t: Table, a: Id, x: Id, avoid: Option<Os>)
    requires Keys(t) && Desc(t, a, x, avoid)
    ensures Desc(t, a, x, None)
    decreases x
  {
    if x != a {
      AvoidWeakens(t, a, t.parent[x].value, avoid);
    }
  }

  /** Together the walks mark everything doomed. */
  lemma MarkedIsDoomed(t: Table, os: Os, list: seq<Id>, x: Id)
    requires Wf(t) && Holds(t, os, list)
    ensures MarkedBy(t, os, list, |list|, x) <==> Doomed(t, list, x)
  {
    hide Wf;
    WfKeys(t);
    if MarkedBy(t, os, list, |list|, x) {
      var j :| 0 <= j < |list| && list[j] !in t.rescinded && Desc(t, list[j], x, Some(os));
      AvoidWeakens(t, list[j], x, Some(os));
    }
    if Doomed(t, list, x) {
      var a :| a in list && a !in t.rescinded && Desc(t, a, x, None);
      var b := NearestExists(t, os, a, x);
      var j :| 0 <= j < |list| && list[j] == b;
    }
  }

  /** The tree after the first k listed resources: what is marked is cut off, the rest is as at
      the start. */
  ghost predicate Dying(t: Table, os: Os, list: seq<Id>, k: nat, u: Table, todo: seq<Id>) {
    && Wf(t) && Wf(u) && Holds(t, os, list) && k <= |list|
    && u.owner == t.owner && u.mapped == t.mapped
    && Distinct(todo) && u.rescinded == t.rescinded + SetOf(todo) && u.enabled == t.enabled - (SetOf(todo) * t.mapped)
    && (forall x :: x in todo <==> MarkedBy(t, os, list, k, x))
    && (forall p, c :: Link(u, p, c) <==> Link(t, p, c) && p !in u.rescinded && c !in u.rescinded)
  }

  lemma DyingStarts(t: Table, os: Os, list: seq<Id>)
    requires Wf(t) && Holds(t, os, list)
    ensures Dying(t, os, list, 0, t, [])
  {
  }

  /** A listed resource is marked only by its own walk. */
  lemma OwnWalkOnly(t: Table, os: Os, list: seq<Id>, k: nat, u: Table, todo: seq<Id>, x: Id)
    requires Dying(t, os, list, k, u, todo) && k < |list| && Desc(t, list[k], x, Some(os))
    ensures x !in todo
  {
    forall j | 0 <= j < k && Desc(t, list[j], x, Some(os))
      ensures false
    {
      NearestUnique(t, os, list[j], list[k], x);
    }
  }

  lemma {:induction false} DescBefore(t: Table, u: Table, a: Id, x: Id, avoid: Option<Os>)
    requires Wf(t) && Wf(u) && u.owner == t.owner && forall p, c :: Link(u, p, c) ==> Link(t, p, c)
    requires Desc(u, a, x, avoid)
    ensures Desc(t, a, x, avoid)
    decreases x
  {
    if x != a {
      DescBefore(t, u, a, u.parent[x].value, avoid);
      assert Link(t, u.parent[x].value, x);
    }
  }

  lemma {:induction false} DescAfter(t: Table, os: Os, list: seq<Id>, k: nat, u: Table, todo: seq<Id>, x: Id)
    requires Dying(t, os, list, k, u, todo) && k < |list| && Desc(t, list[k], x, Some(os))
    ensures Desc(u, list[k], x, Some(os))
    decreases x
  {
    if x != list[k] {
      var p := t.parent[x].value;
      DescAfter(t, os, list, k, u, todo, p);
      OwnWalkOnly(t, os, list, k, u, todo, x);
      OwnWalkOnly(t, os, list, k, u, todo, p);
      assert Link(t, p, x) && x !in t.rescinded && p !in t.rescinded;
      assert x !in SetOf(todo) && p !in SetOf(todo);
      assert Link(u, p, x);
    }
  }

  /** The links left by a walk. */
  lemma RescindLinks(u: Table, a: Id, avoid: Option<Os>, r: Table, q: seq<Id>, p: Id, c: Id)
    requires Rescinds(u, a, avoid, r, q)
    ensures Link(r, p, c) <==> Link(u, p, c) && p !in r.rescinded && c !in r.rescinded
  {
    hide Distinct, Desc, Cut, ParentsFirst;
    assert q[..|q|] == q && a in q;
    assert Link(r, p, c) ==> p !in r.rescinded && c !in r.rescinded;
    CutLink(u, a, p, c);
  }

  lemma CutLink(t: Table, start: Id, p: Id, c: Id)
    requires Wf(t) && start in t.owner
    ensures p in Cut(t, start).children <==> p in t.children
    ensures p in t.children ==> (c in Cut(t, start).children[p] <==> c in t.children[p] && c != start)
  {
    hide Distinct;
    assert Link(t, p, start) ==> t.parent[start] == Some(p);
  }

  lemma DyingMark(t: Table, os: Os, list: seq<Id>, k: nat, u: Table, todo: seq<Id>, r: Table, q: seq<Id>, x: Id)
    requires Dying(t, os, list, k, u, todo) && k < |list| && Rescinds(u, list[k], Some(os), r, q)
    ensures x in todo + q <==> MarkedBy(t, os, list, k + 1, x)
    ensures x in q ==> x !in todo
  {
    hide Stripped, ParentsFirst, Distinct, Sorted;
    if x in q {
      DescBefore(t, u, list[k], x, Some(os));
      OwnWalkOnly(t, os, list, k, u, todo, x);
      assert list[k] in q;
    }
    if MarkedBy(t, os, list, k + 1, x) && !MarkedBy(t, os, list, k, x) {
      assert Desc(t, list[k], x, Some(os));
      DescAfter(t, os, list, k, u, todo, x);
    }
  }

  /** Walking from the next listed resource. */
  lemma DyingStep(t: Table, os: Os, list: seq<Id>, k: nat, u: Table, todo: seq<Id>, r: Table, q: seq<Id>)
    requires Dying(t, os, list, k, u, todo) && k < |list| && Rescinds(u, list[k], Some(os), r, q)
    ensures Dying(t, os, list, k + 1, r, todo + q)
  {
    hide ParentsFirst, Desc, Sorted, Distinct, MarkedBy, Wf, StrippedLists, StrippedParents, Holds;
    WfKeys(t);
    forall x
      ensures x in todo + q <==> MarkedBy(t, os, list, k + 1, x)
      ensures x in q ==> x !in todo
    {
      DyingMark(t, os, list, k, u, todo, r, q, x);
    }
    DistinctConcat(todo, q);
    assert SetOf(todo + q) == SetOf(todo) + SetOf(q);
    forall p, c
      ensures Link(r, p, c) <==> Link(t, p, c) && p !in r.rescinded && c !in r.rescinded
    {
      RescindLinks(u, list[k], Some(os), r, q, p, c);
    }
  }

  /** Passing over a resource that is being rescinded already. */
  lemma DyingSkip(t: Table, os: Os, list: seq<Id>, k: nat, u: Table, todo: seq<Id>)
    requires Dying(t, os, list, k, u, todo) && k < |list| && list[k] in u.rescinded
    ensures Dying(t, os, list, k + 1, u, todo)
  {
    hide Wf, Distinct, Sorted, Link;
    WfKeys(t);
    OwnWalkOnly(t, os, list, k, u, todo, list[k]);
    assert list[k] in t.rescinded;
    assert forall x :: MarkedBy(t, os, list, k + 1, x) <==> MarkedBy(t, os, list, k, x);
  }

  /** On the list, everything that hangs off something doomed comes after it. */
  ghost predicate InOrder(t: Table, list: seq<Id>, todo: seq<Id>)
    requires Keys(t)
  {
    forall j, p :: 0 <= j < |todo| && Link(t, p, todo[j]) && Doomed(t, list, p) ==> p in todo[..j]
  }

  /** The parent of the next start, if doomed, is on the list: it descends from an older one. */
  lemma StartAfterParent(t: Table, os: Os, list: seq<Id>, k: nat, u: Table, todo: seq<Id>, p: Id)
    requires Dying(t, os, list, k, u, todo) && k < |list| && Link(t, p, list[k]) && Doomed(t, list, p)
    ensures p in todo
  {
    hide Wf, Link, Desc, Distinct, Sorted, Holds, Doomed;
    LinkOlder(t, p, list[k]);
    var j := NearestListed(t, os, list, p);
    SortedBefore(t, os, list, j, k);
  }

  lemma NearestListed(t: Table, os: Os, list: seq<Id>, p: Id) returns (j: nat)
    requires Wf(t) && Holds(t, os, list) && Doomed(t, list, p)
    ensures j < |list| && list[j] <= p && list[j] !in t.rescinded && Desc(t, list[j], p, Some(os))
  {
    WfKeys(t);
    hide Wf, Desc, Sorted;
    var a :| a in list && a !in t.rescinded && Desc(t, a, p, None);
    var b := NearestExists(t, os, a, p);
    j :| 0 <= j < |list| && list[j] == b;
  }

  lemma SortedBefore(t: Table, os: Os, list: seq<Id>, j: nat, k: nat)
    requires Holds(t, os, list) && j < |list| && k < |list| && list[j] < list[k]
    ensures j < k
  {
  }

  lemma LinkOlder(t: Table, p: Id, c: Id)
    requires Wf(t) && Link(t, p, c)
    ensures Keys(t) && p < c
  {
  }

  lemma WalkedAfterParent(t: Table, u: Table, a: Id, avoid: Option<Os>, r: Table, q: seq<Id>, m: nat, p: Id)
    requires Wf(t) && Rescinds(u, a, avoid, r, q) && 0 < m < |q| && Link(t, p, q[m])
    requires forall x, y :: Link(u, x, y) ==> Link(t, x, y)
    ensures p in q[..m]
  {
  }

  lemma OrderGrows(t: Table, list: seq<Id>, todo: seq<Id>, q: seq<Id>)
    requires Keys(t) && InOrder(t, list, todo) && q != []
    requires forall p :: Link(t, p, q[0]) && Doomed(t, list, p) ==> p in todo
    requires forall m, p :: 0 < m < |q| && Link(t, p, q[m]) ==> p in q[..m]
    ensures InOrder(t, list, todo + q)
  {
    hide Doomed, Link;
    var all := todo + q;
    forall j, p | 0 <= j < |all| && Link(t, p, all[j]) && Doomed(t, list, p)
      ensures p in all[..j]
    {
      if j < |todo| {
        assert all[..j] == todo[..j];
      } else {
        assert all[..j] == todo + q[..j - |todo|];
      }
    }
  }

  lemma OrderStep(t: Table, os: Os, list: seq<Id>, k: nat, u: Table, todo: seq<Id>, r: Table, q: seq<Id>)
    requires Dying(t, os, list, k, u, todo) && k < |list| && Rescinds(u, list[k], Some(os), r, q)
    requires Keys(t) && InOrder(t, list, todo)
    ensures InOrder(t, list, todo + q)
  {
    hide Wf, Doomed, MarkedBy, Link, Holds, Distinct, Stripped, InOrder;
    forall p | Link(t, p, q[0]) && Doomed(t, list, p)
      ensures p in todo
    {
      StartAfterParent(t, os, list, k, u, todo, p);
    }
    forall m, p | 0 < m < |q| && Link(t, p, q[m])
      ensures p in q[..m]
    {
      WalkedAfterParent(t, u, list[k], Some(os), r, q, m, p);
    }
    OrderGrows(t, list, todo, q);
  }

  /** When the loop ends: what was held and everything descended from it is marked, nothing else
      is; the marked ones are listed once each, parents before children, and the survivors hang
      together as before. */
  ghost predicate Dead(t: Table, os: Os, r: Table, todo: seq<Id>)
    requires Keys(t) && os in t.held
  {
    && Wf(r) && r.owner == t.owner && r.mapped == t.mapped && r.held == t.held[os := []]
    && Distinct(todo) && (forall x :: x in todo <==> Doomed(t, t.held[os], x))
    && r.rescinded == t.rescinded + SetOf(todo) && r.enabled == t.enabled - (SetOf(todo) * t.mapped)
    && (forall x :: x in todo ==> x in r.children && r.children[x] == [])
    && (forall p, c :: Link(r, p, c) <==> Link(t, p, c) && p !in r.rescinded && c !in r.rescinded)
    && InOrder(t, t.held[os], todo)
  }

  lemma DyingEnds(t: Table, os: Os, r: Table, todo: seq<Id>)
    requires Keys(t) && os in t.held && Dying(t, os, t.held[os], |t.held[os]|, r, todo) && InOrder(t, t.held[os], todo)
    requires r.held == t.held[os := []]
    ensures Dead(t, os, r, todo)
  {
    hide InOrder, MarkedBy, Doomed, Holds, Distinct;
    forall x
      ensures x in todo <==> Doomed(t, t.held[os], x)
    {
      MarkedIsDoomed(t, os, t.held[os], x);
    }
    assert forall x :: x in todo ==> x in r.rescinded;
  }

  function Reverse(s: seq<Id>): (r: seq<Id>)
    ensures |r| == |s| && forall i :: 0 <= i < |s| ==> r[i] == s[|s| - 1 - i]
  {
    if s == [] then [] else [s[|s| - 1]] + Reverse(s[..|s| - 1])
  }

  function OnlyIn(s: seq<Id>, keep: set<Id>): seq<Id> {
    if s == [] then [] else OnlyIn(s[..|s| - 1], keep) + if s[|s| - 1] in keep then [s[|s| - 1]] else []
  }

  lemma OnlyInAppend(s: seq<Id>, x: Id, keep: set<Id>)
    ensures OnlyIn([], keep) == []
    ensures OnlyIn(s + [x], keep) == OnlyIn(s, keep) + if x in keep then [x] else []
  {
  }

  /** Walked backwards, a list with parents first has children first. */
  lemma ChildrenFirst(t: Table, list: seq<Id>, todo: seq<Id>, p: Id, j: nat) returns (i: nat, k: nat)
    requires Keys(t) && InOrder(t, list, todo) && j < |todo| && Link(t, p, todo[j]) && Doomed(t, list, p)
    ensures i < k < |todo| && Reverse(todo)[i] == todo[j] && Reverse(todo)[k] == p
  {
    hide Link, Doomed, Reverse;
    assert p in todo[..j];
    var h :| 0 <= h < j && todo[..j][h] == p;
    i, k := |todo| - 1 - j, |todo| - 1 - h;
  }

  /** The order of creation and the tree invariant, for every partition. */
  ghost predicate Ok(t: Table) {
    && Wf(t)
    && (forall os :: os in t.held ==> Holds(t, os, t.held[os]))
    && (forall x :: x in t.owner ==> t.owner[x] in t.held)
  }

  /** The tree invariant does not look at the mapping flags. */
  lemma FlagsKeepOk(t: Table, r: Table)
    requires Ok(t) && r == t.(mapped := r.mapped, enabled := r.enabled)
    ensures Ok(r)
  {
    hide Wf, Sorted;
    SameTree(t, r);
  }

  lemma RescindKeepsOk(t: Table, start: Id, avoid: Option<Os>, r: Table, q: seq<Id>)
    requires Ok(t) && Rescinds(t, start, avoid, r, q)
    ensures Ok(r)
  {
    hide Wf, StrippedLists, StrippedParents, Desc, Sorted;
  }

  lemma DeathKeepsOk(t: Table, os: Os, r: Table, todo: seq<Id>)
    requires Ok(t) && os in t.held && Keys(t) && Dead(t, os, r, todo)
    ensures Ok(r)
  {
    hide Wf, InOrder, Sorted, Distinct;
    forall x | x in r.owner && r.owner[x] == os
      ensures x in r.rescinded
    {
      assert Desc(t, x, x, None);
      if x !in t.rescinded {
        assert Doomed(t, t.held[os], x);
      }
    }
    assert Sorted(r.held[os]) by { assert r.held[os] == []; SortedEmpty(); }
  }

  lemma SortedEmpty()
    ensures Sorted([])
  {
  }

  lemma DropKeepsOk(t: Table, os: Os, x: Id)
    requires Ok(t) && os in t.held && x in t.rescinded
    ensures Ok(t.(held := t.held[os := Without(t.held[os], x)]))
  {
    hide Wf, Sorted, Without;
    var r := t.(held := t.held[os := Without(t.held[os], x)]);
    SameTree(t, r);
    WithoutSorted(t.held[os], x);
  }

  /** The tree invariant looks at the links, the owners and the marks only. */
  lemma SameTree(t: Table, r: Table)
    requires Wf(t) && r.parent == t.parent && r.children == t.children && r.owner == t.owner
    requires r.rescinded == t.rescinded
    ensures Wf(r)
  {
    hide Distinct;
    assert forall p, c :: Link(r, p, c) <==> Link(t, p, c);
  }

  /** The table with a new resource under `parent`, owned by os. */
  ghost function Insert(t: Table, id: Id, parent: Option<Id>, os: Os): Table
    requires Keys(t) && os in t.held && (parent.Some? ==> parent.value in t.owner)
  {
    var kids := t.children[id := []];
    t.(parent := t.parent[id := parent],
       children := if parent.Some? then kids[parent.value := t.children[parent.value] + [id]] else kids,
       owner := t.owner[id := os],
       held := t.held[os := t.held[os] + [id]])
  }

  lemma InsertHolds(t: Table, id: Id, parent: Option<Id>, os: Os, o: Os)
    requires Keys(t) && os in t.held && (parent.Some? ==> parent.value in t.owner)
    requires o in t.held && Holds(t, o, t.held[o]) && forall x :: x in t.owner ==> x < id
    ensures var r := Insert(t, id, parent, os); Holds(r, o, r.held[o])
  {
    var r := Insert(t, id, parent, os);
    if o == os {
      assert forall x :: x in r.held[o] <==> x in t.held[o] || x == id;
      assert forall j :: 0 <= j < |t.held[o]| ==> t.held[o][j] in t.held[o];
    }
  }

  lemma InsertKeepsOk(t: Table, id: Id, parent: Option<Id>, os: Os)
    requires Ok(t) && Keys(t) && os in t.held
    requires parent.Some? ==> parent.value in t.owner && parent.value !in t.rescinded
    requires forall x :: x in t.owner ==> x < id
    ensures Ok(Insert(t, id, parent, os))
  {
    hide Wf, Holds;
    InsertWf(t, id, parent, os);
    var r := Insert(t, id, parent, os);
    forall o | o in r.held
      ensures Holds(r, o, r.held[o])
    {
      InsertHolds(t, id, parent, os, o);
    }
  }

  /** The lists after the resources `gone` have been taken off their owners' lists. */
  ghost predicate Dropped(before: map<Os, seq<Id>>, after: map<Os, seq<Id>>, owner: map<Id, Os>, gone: seq<Id>) {
    && after.Keys == before.Keys
    && forall os, x :: os in before && x in owner ==>
                         (x in after[os] <==> x in before[os] && !(x in gone && owner[x] == os))
  }

  lemma DropNext(before: map<Os, seq<Id>>, after: map<Os, seq<Id>>, owner: map<Id, Os>, gone: seq<Id>, x: Id)
    requires Dropped(before, after, owner, gone) && x in owner && owner[x] in after
    ensures Dropped(before, after[owner[x] := Without(after[owner[x]], x)], owner, [x] + gone)
  {
  }

  lemma InsertWf(t: Table, id: Id, parent: Option<Id>, os: Os)
    requires Wf(t) && os in t.held && (parent.Some? ==> parent.value in t.owner && parent.value !in t.rescinded)
    requires forall x :: x in t.owner ==> x < id
    ensures Wf(Insert(t, id, parent, os))
  {
    hide Distinct, Insert, Link;
    var r := Insert(t, id, parent, os);
    InsertDistinct(t, id, parent, os);
    InsertFields(t, id, parent, os);
    forall p: Id, c: Id
      ensures Link(r, p, c) <==> Link(t, p, c) || (c == id && parent == Some(p))
    {
      InsertLink(t, id, parent, os, p, c);
    }
  }

  lemma InsertFields(t: Table, id: Id, parent: Option<Id>, os: Os)
    requires Wf(t) && os in t.held && (parent.Some? ==> parent.value in t.owner && parent.value !in t.rescinded)
    requires id !in t.owner
    ensures var r := Insert(t, id, parent, os);
            && Keys(r) && r.owner.Keys == t.owner.Keys + {id} && r.parent == t.parent[id := parent]
            && r.rescinded == t.rescinded && forall p :: p in r.rescinded ==> r.children[p] == []
  {
    hide Distinct;
  }

  lemma InsertLink(t: Table, id: Id, parent: Option<Id>, os: Os, p: Id, c: Id)
    requires Keys(t) && os in t.held && (parent.Some? ==> parent.value in t.owner) && id !in t.owner
    ensures Link(Insert(t, id, parent, os), p, c) <==> Link(t, p, c) || (c == id && parent == Some(p))
  {
  }

  lemma InsertDistinct(t: Table, id: Id, parent: Option<Id>, os: Os)
    requires Wf(t) && os in t.held && (parent.Some? ==> parent.value in t.owner)
    requires forall x :: x in t.owner ==> x < id
    ensures var r := Insert(t, id, parent, os); forall p :: p in r.children ==> Distinct(r.children[p])
  {
    NoneDistinct([]);
    if parent.Some? {
      assert forall c :: c in t.children[parent.value] ==> Link(t, parent.value, c);
      DistinctConcat(t.children[parent.value], [id]);
    }
    hide Distinct;
  }

  class ResourceTree {
    var parent: map<Id, Option<Id>>
    var children: map<Id, seq<Id>>
    var owner: map<Id, Os>
    var rescinded: set<Id>
    var mapped: set<Id>
    var enabled: set<Id>
    var held: map<Os, seq<Id>>
    var returned: seq<Id>    // unmapped by return_fn, in order
    var destroyed: seq<Id>   // passed to rescind_fn, in order
    var keys: nat

    ghost function View(): Table
      reads this
    {
      Table(parent, children, owner, rescinded, mapped, enabled, held)
    }

    constructor (partitions: set<Os>)
      ensures Ok(View()) && held.Keys == partitions && owner == map[] && keys == 1 && destroyed == [] && returned == []
    {
      parent, children, owner, rescinded, mapped, enabled := map[], map[], map[], {}, {}, {};
      held := map os | os in partitions :: [];
      returned, destroyed, keys := [], [], 1;
    }

    /** insert_resource: refused when the parent is rescinded. */
    method InsertResource(parentId: Option<Id>, os: Os) returns (cookie: Option<Id>)
      requires Ok(View()) && os in held && (parentId.Some? ==> parentId.value in owner)
      requires forall x :: x in owner ==> x <= keys
      modifies `parent, `children, `owner, `held, `keys
      ensures Ok(View()) && forall x :: x in owner ==> x <= keys
      ensures cookie.None? <==> parentId.Some? && parentId.value in rescinded
      ensures cookie.None? ==> View() == old(View())
      ensures cookie.Some? ==> cookie.value !in old(owner) && View() == Insert(old(View()), cookie.value, parentId, os)
    {
      hide Wf, Holds;
      ghost var t := View();
      WfKeys(t);
      if parentId.Some? && parentId.value in rescinded {
        return None;
      }
      InsertKeepsOk(t, keys + 1, parentId, os);
      keys := keys + 1;
      children := children[keys := []];
      if parentId.Some? {
        children := children[parentId.value := children[parentId.value] + [keys]];
      }
      parent := parent[keys := parentId];
      owner := owner[keys := os];
      held := held[os := held[os] + [keys]];
      return Some(keys);
    }

    /** The inner loop of forced_rescind_mark. */
    method StripChildren(sr: Id, nodes: seq<Id>, avoid: Option<Os>) returns (out: seq<Id>)
      requires Strippable(View(), sr)
      modifies `parent, `children, `rescinded, `enabled
      ensures View() == Strip(old(View()), sr, avoid)
      ensures out == nodes + Kids(old(View()), old(children[sr]), avoid)
    {
      hide StripPart, Kids, Strip;
      ghost var t, list := View(), children[sr];
      StripEnds(t, sr, avoid);
      out := nodes;
      ghost var k := 0;
      while children[sr] != []
        invariant sr in children && k <= |list| && children[sr] == list[k..]
        invariant View() == StripPart(t, sr, k, avoid)
        invariant out == nodes + Kids(t, list[..k], avoid)
        decreases |list| - k
      {
        NextKid(t, sr, k, avoid);
        StripNextMarks(t, sr, k, avoid);
        StripNextLinks(t, sr, k, avoid);
        var child := children[sr][0];
        parent := parent[child := None];
        children := children[sr := children[sr][1..]];
        if Some(owner[child]) != avoid && child !in rescinded {
          rescinded := rescinded + {child};
          if child in mapped {
            enabled := enabled - {child};
          }
          out := out + [child];
        }
        k := k + 1;
      }
    }

    /** Marks the start, takes it off its parent's list and turns its translation off: in a well
        formed tree an unmarked start leaves a walk with nothing but itself queued. */
    method CutStart(start: Id, ghost avoid: Option<Os>)
      requires Keys(View()) && start in owner
      modifies `children, `rescinded, `enabled
      ensures View() == Cut(old(View()), start)
      ensures Wf(old(View())) && start !in old(rescinded) ==> Walking(old(View()), start, avoid, View(), [start], 0)
    {
      hide Wf, Walking;
      ghost var t := View();
      if parent[start].Some? && parent[start].value in children {
        var p := parent[start].value;
        children := children[p := Without(children[p], start)];
      }
      rescinded := rescinded + {start};
      if start in mapped {
        enabled := enabled - {start};
      }
      assert View() == Cut(t, start);
      if Wf(t) && start !in t.rescinded {
        WalkStarts(t, start, avoid);
      }
    }

    /** Marks a resource and all of its children as being rescinded; false if it was marked. */
    method ForcedRescindMark(start: Id, nodes: seq<Id>, avoid: Option<Os>)
      returns (done: bool, out: seq<Id>, ghost q: seq<Id>)
      requires Wf(View()) && start in owner
      modifies `parent, `children, `rescinded, `enabled
      ensures done <==> start !in old(rescinded)
      ensures !done ==> View() == old(View()) && out == nodes
      ensures done ==> out == nodes + q && Rescinds(old(View()), start, avoid, View(), q)
    {
      hide Walking, Wf, Rescinds, Kids, Strip, Strippable, Cut;
      ghost var t := View();
      q := [];
      if start in rescinded {
        return false, nodes, q;
      }
      WfKeys(t);
      CutStart(start, avoid);
      out := nodes + [start];
      q := [start];
      var i := |nodes|;
      while i < |out|
        invariant |nodes| <= i <= |out| && out == nodes + q
        invariant Walking(t, start, avoid, View(), q, i - |nodes|)
        decreases |t.owner.Keys| - (i - |nodes|)
      {
        ghost var u, k := View(), i - |nodes|;
        assert out[i] == q[k];
        WalkBounded(t, start, avoid, u, q, k);
        WalkNextStrippable(t, start, avoid, u, q, k);
        WalkStep(t, start, avoid, u, q, k);
        ghost var kids := Kids(u, u.children[q[k]], avoid);
        out := StripChildren(out[i], out, avoid);
        q := q + kids;
        assert nodes + (q[..|q| - |kids|] + kids) == nodes + q[..|q| - |kids|] + kids;
        i := i + 1;
      }
      WalkEnds(t, start, avoid, View(), q);
      done := true;
    }

    /** One round of partition_death_cleanup: the next listed resource is walked unless marked. */
    method DeathRound(os: Os, sr: Id, todo: seq<Id>, ghost t: Table, ghost list: seq<Id>, ghost k: nat)
      returns (out: seq<Id>)
      requires Dying(t, os, list, k, View(), todo) && Keys(t) && InOrder(t, list, todo)
      requires k < |list| && sr == list[k] && Wf(View()) && sr in owner
      modifies `parent, `children, `rescinded, `enabled
      ensures Dying(t, os, list, k + 1, View(), out) && InOrder(t, list, out)
    {
      hide Wf, Rescinds, InOrder, Dying;
      ghost var u := View();
      if sr in rescinded {
        DyingSkip(t, os, list, k, u, todo);
        return todo;
      }
      ghost var q;
      var done;
      done, out, q := ForcedRescindMark(sr, todo, Some(os));
      DyingStep(t, os, list, k, u, todo, View(), q);
      OrderStep(t, os, list, k, u, todo, View(), q);
    }

    /** The marking loop of partition_death_cleanup. */
    method PartitionDeath(os: Os) returns (todo: seq<Id>)
      requires Wf(View()) && os in held && Holds(View(), os, held[os])
      modifies `parent, `children, `rescinded, `enabled, `held
      ensures Dead(old(View()), os, View(), todo)
    {
      hide Wf, Holds, Rescinds, InOrder, Dead, Dying;
      ghost var t, list, k := View(), held[os], 0;
      WfKeys(t);
      DyingStarts(t, os, list);
      OrderStarts(t, list);
      todo := [];
      while held[os] != []
        invariant k <= |list| && held == t.held[os := list[k..]]
        invariant Dying(t, os, list, k, View(), todo) && InOrder(t, list, todo)
        decreases |list| - k
      {
        ghost var u0 := View();
        NextHeld(t.held, os, list, k);
        var sr := held[os][0];
        held := held[os := held[os][1..]];
        ghost var u := View();
        DyingFrame(t, os, list, k, u0, u, todo);
        ListedOwned(t, os, list, k);
        todo := DeathRound(os, sr, todo, t, list, k);
        k := k + 1;
      }
      assert list[k..] == [];
      DyingEnds(t, os, View(), todo);
    }

    /** forced_rescind_cleanup: walks the list backwards and destroys each resource. */
    method ForcedRescindCleanup(nodes: seq<Id>)
      requires Ok(View())
      requires forall x :: x in nodes ==>
                           x in owner && owner[x] in held && x in rescinded && x in children && children[x] == []
      modifies `held, `returned, `destroyed
      ensures Ok(View())
      ensures destroyed == old(destroyed) + Reverse(nodes)
      ensures returned == old(returned) + OnlyIn(Reverse(nodes), mapped)
      ensures Dropped(old(held), held, owner, nodes)
    {
      hide Ok, Sorted, Distinct, Dropped, Without, Reverse, OnlyIn;
      assert nodes[|nodes|..] == [] && Dropped(held, held, owner, []) by { DropNone(held, owner); }
      OnlyInAppend([], 0, mapped);
      var i := |nodes|;
      while i > 0
        invariant 0 <= i <= |nodes| && held.Keys == old(held).Keys && Ok(View())
        invariant destroyed == old(destroyed) + Reverse(nodes)[..|nodes| - i]
        invariant returned == old(returned) + OnlyIn(Reverse(nodes)[..|nodes| - i], mapped)
        invariant Dropped(old(held), held, owner, nodes[i..])
      {
        i := i - 1;
        var sr := nodes[i];
        assert sr in nodes;
        var os := owner[sr];
        DropKeepsOk(View(), os, sr);
        DropNext(old(held), held, owner, nodes[i + 1..], sr);
        held := held[os := Without(held[os], sr)];
        if sr in mapped {
          returned := returned + [sr];
        }
        destroyed := destroyed + [sr];
        ghost var rev, n := Reverse(nodes), |nodes| - i;
        assert rev[..n] == rev[..n - 1] + [sr];
        OnlyInAppend(rev[..n - 1], sr, mapped);
        assert nodes[i..] == [sr] + nodes[i + 1..];
      }
      assert Reverse(nodes)[..|nodes|] == Reverse(nodes) && nodes[0..] == nodes;
    }

    /** A rescind from mark to cleanup: the resource and its descendants, and nothing else, are
        destroyed, each exactly once and children before parents. */
    method Rescind(start: Id) returns (done: bool, ghost q: seq<Id>)
      requires Ok(View()) && start in owner
      modifies `parent, `children, `rescinded, `enabled, `held, `returned, `destroyed
      ensures Ok(View()) && (done <==> start !in old(rescinded))
      ensures !done ==> View() == old(View()) && destroyed == old(destroyed) && returned == old(returned)
      ensures done ==>
                && Keys(old(View())) && Distinct(q) && ParentsFirst(old(View()), q)
                && (forall x :: x in q <==> Desc(old(View()), start, x, None))
                && rescinded == old(rescinded) + SetOf(q) && enabled == old(enabled) - (SetOf(q) * mapped)
                && destroyed == old(destroyed) + Reverse(q) && returned == old(returned) + OnlyIn(Reverse(q), mapped)
                && Dropped(old(held), held, owner, q)
    {
      hide Ok, Wf, Rescinds, Desc, Distinct, ParentsFirst, Dropped, Reverse, OnlyIn;
      ghost var t := View();
      OkWf(t);
      WfKeys(t);
      var nodes;
      done, nodes, q := ForcedRescindMark(start, [], None);
      if done {
        RescindKeepsOk(t, start, None, View(), q);
        RescindSummary(t, start, None, View(), q);
        assert nodes == q;
        ForcedRescindCleanup(nodes);
      }
    }

    /** partition_death_cleanup and its deferred cleanup. */
    method Death(os: Os) returns (todo: seq<Id>)
      requires Ok(View()) && os in held
      modifies `parent, `children, `rescinded, `enabled, `held, `returned, `destroyed
      ensures Ok(View()) && Keys(old(View())) && held.Keys == old(held).Keys && held[os] == []
      ensures Distinct(todo) && forall x :: x in todo <==> Doomed(old(View()), old(held)[os], x)
      ensures rescinded == old(rescinded) + SetOf(todo) && enabled == old(enabled) - (SetOf(todo) * mapped)
      ensures InOrder(old(View()), old(held)[os], todo) && Dropped(old(held)[os := []], held, owner, todo)
      ensures destroyed == old(destroyed) + Reverse(todo) && returned == old(returned) + OnlyIn(Reverse(todo), mapped)
    {
      hide Ok, Wf, Holds, Doomed, Distinct, InOrder, Reverse, OnlyIn;
      ghost var t := View();
      OkWf(t);
      WfKeys(t);
      todo := PartitionDeath(os);
      DeathKeepsOk(t, os, View(), todo);
      DeathSummary(t, os, View(), todo);
      ForcedRescindCleanup(todo);
      EmptyStays(old(held)[os := []], held, owner, os, todo, View());
    }
  }

  lemma EmptyOrNot(s: seq<Id>)
    ensures s == [] || exists x :: x in s
  {
    if s != [] {
      assert s[0] in s;
    }
  }

  lemma EmptyStays(before: map<Os, seq<Id>>, after: map<Os, seq<Id>>, owner: map<Id, Os>, os: Os, gone: seq<Id>,
                   t: Table)
    requires Dropped(before, after, owner, gone) && os in before && before[os] == []
    requires Ok(t) && t.held == after && t.owner == owner
    ensures after[os] == []
  {
    assert Holds(t, os, after[os]);
    assert forall x :: x in after[os] ==> x in before[os];
    EmptyOrNot(after[os]);
  }

  lemma OkWf(t: Table)
    requires Ok(t)
    ensures Wf(t) && (forall os :: os in t.held ==> Holds(t, os, t.held[os]))
    ensures forall x :: x in t.owner ==> t.owner[x] in t.held
  {
  }

  /** What hangs off something marked is marked with it. */
  lemma RescindClosed(t: Table, start: Id, r: Table, q: seq<Id>, p: Id, c: Id)
    requires Rescinds(t, start, None, r, q) && Link(t, p, c) && p in q
    ensures c in q
  {
    hide ParentsFirst, Stripped, Distinct;
    assert Desc(t, start, p, None) && t.parent[c] == Some(p);
    assert Desc(t, start, c, None);
  }

  lemma DoomedClosed(t: Table, list: seq<Id>, p: Id, c: Id)
    requires Wf(t) && Link(t, p, c) && Doomed(t, list, p)
    ensures Doomed(t, list, c)
  {
    hide Distinct;
    var a :| a in list && a !in t.rescinded && Desc(t, a, p, None);
    assert t.parent[c] == Some(p);
    assert Desc(t, a, c, None);
  }

  /** What a rescind leaves for the cleanup to do. */
  lemma RescindSummary(t: Table, start: Id, avoid: Option<Os>, r: Table, q: seq<Id>)
    requires Rescinds(t, start, avoid, r, q) && Ok(r)
    ensures Distinct(q) && ParentsFirst(t, q) && r.held == t.held && r.mapped == t.mapped && r.owner == t.owner
    ensures forall x :: x in q <==> Desc(t, start, x, avoid)
    ensures r.rescinded == t.rescinded + SetOf(q) && r.enabled == t.enabled - (SetOf(q) * t.mapped)
    ensures forall x :: x in q ==>
                        && x in r.owner && r.owner[x] in r.held && x in r.rescinded
                        && x in r.children && r.children[x] == []
  {
    hide Desc, Distinct, ParentsFirst, Holds;
    assert q[..|q|] == q;
  }

  lemma DeathSummary(t: Table, os: Os, r: Table, todo: seq<Id>)
    requires Keys(t) && os in t.held && Dead(t, os, r, todo) && Ok(r)
    ensures forall x :: x in todo ==>
                        && x in r.owner && r.owner[x] in r.held && x in r.rescinded
                        && x in r.children && r.children[x] == []
  {
  }

  lemma DropNone(held: map<Os, seq<Id>>, owner: map<Id, Os>)
    ensures Dropped(held, held, owner, [])
  {
  }

  lemma OrderStarts(t: Table, list: seq<Id>)
    requires Keys(t)
    ensures InOrder(t, list, [])
  {
  }

  lemma DyingFrame(t: Table, os: Os, list: seq<Id>, k: nat, u: Table, v: Table, todo: seq<Id>)
    requires Dying(t, os, list, k, u, todo) && v == u.(held := v.held)
    ensures Dying(t, os, list, k, v, todo) && Wf(v) && v.owner == t.owner
  {
    hide Holds, MarkedBy, Distinct;
    assert forall p, c :: Link(v, p, c) <==> Link(u, p, c);
  }

  /** Taking the first resource off what is left of a list. */
  lemma NextHeld(held: map<Os, seq<Id>>, os: Os, list: seq<Id>, k: nat)
    requires k < |list|
    ensures list[k..][0] == list[k] && held[os := list[k..]][os := list[k..][1..]] == held[os := list[k + 1..]]
  {
    assert list[k..][1..] == list[k + 1..];
  }

  lemma ListedOwned(t: Table, os: Os, list: seq<Id>, k: nat)
    requires Holds(t, os, list) && k < |list|
    ensures list[k] in t.owner
  {
  }

  lemma WfKeys(t: Table)
    requires Wf(t)
    ensures Keys(t)
  {
  }

  lemma WalkNextStrippable(t: Table, start: Id, avoid: Option<Os>, r: Table, q: seq<Id>, i: nat)
    requires Walking(t, start, avoid, r, q, i) && i < |q|
    ensures Strippable(r, q[i])
  {
    WalkNext(t, start, avoid, r, q, i);
  }

  /** The queue holds each resource at most once, so the walk ends. */
  lemma WalkBounded(t: Table, start: Id, avoid: Option<Os>, r: Table, q: seq<Id>, i: nat)
    requires Walking(t, start, avoid, r, q, i)
    ensures |q| <= |t.owner.Keys|
  {
    DistinctSize(q, t.owner.Keys);
  }

  lemma StripEnds(t: Table, sr: Id, avoid: Option<Os>)
    requires Strippable(t, sr)
    ensures StripPart(t, sr, 0, avoid) == t && Kids(t, t.children[sr][..0], avoid) == []
    ensures StripPart(t, sr, |t.children[sr]|, avoid) == Strip(t, sr, avoid)
    ensures t.children[sr][..|t.children[sr]|] == t.children[sr]
  {
  }
}
