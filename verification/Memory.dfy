/** Memory resources and logical address spaces: define, grant, accept, rescind and cleanup of
    hype/mem_resource.c, hype/phys_mem.c and hype/pmm.c over the resource tree.  Each hypervisor
    call is one step; all resources are of type MEM_ADDR and mapped by chunks. */
module Memory {
  import opened Lists
  import opened Ranges
  import opened LogicalMap
  import R = Resource

  /** The address fields of struct logical_chunk_info; `source` is the resource it was granted
      from, which stays on record when the tree link is cut. */
  datatype Lci = Lci(raddr: nat, laddr: nat, size: nat, source: Option<Id>)

  /** All partitions: the resource tree, the chunk info of each resource, and each partition's map
      from chunks to resources. `destroyed` collects what rescind_fn was called on; `count` is
      mem_res_count. */
  datatype State = State(
    tree: R.Table,
    lci: map<Id, Lci>,
    chunks: map<R.Os, seq<Option<Id>>>,
    destroyed: set<Id>,
    count: int)

  const INVALID: nat := WORD - 1

  function Init(partitions: set<R.Os>): State {
    State(R.Table(map[], map[], map[], {}, {}, {}, map os | os in partitions :: []),
          map[], map os | os in partitions :: seq(MAX_CHUNKS, _ => None), {}, 0)
  }

  // ---------------------------------------------------------------------------------------------
  // Translation

  /** lci_translate for a directly mapped chunk. */
  function Translate(l: Lci, enabled: bool, laddr: nat, len: nat): nat {
    if !enabled then INVALID
    else if !RangeContains(l.laddr, l.size, laddr)
            || !RangeContains(l.laddr, l.size, Add(Add(laddr, len), WORD - 1)) then INVALID
    else laddr - l.laddr + l.raddr
  }

  /** laddr_to_lci: the resource whose chunk the logical address falls in. */
  ghost function Source(s: State, os: R.Os, laddr: nat): Option<Id> {
    if os in s.chunks && laddr / CHUNK < |s.chunks[os]| then s.chunks[os][laddr / CHUNK] else None
  }

  /** logical_to_physical_address. */
  ghost function ToPhysical(s: State, os: R.Os, laddr: nat, len: nat): nat
  {
    match Source(s, os, laddr)
    case None => INVALID
    case Some(id) => if id in s.lci then Translate(s.lci[id], id in s.tree.enabled, laddr, len) else INVALID
  }

  // ---------------------------------------------------------------------------------------------
  // What every state keeps

  ghost predicate Keys(s: State) {
    && s.lci.Keys == s.tree.owner.Keys
    && s.chunks.Keys == s.tree.held.Keys
    && forall os :: os in s.chunks ==> |s.chunks[os]| == MAX_CHUNKS
  }

  /** Chunks of a resource. */
  ghost predicate Covers(l: Lci, c: nat) {
    l.laddr / CHUNK <= c < l.laddr / CHUNK + ChunksFor(l.size, l.laddr)
  }

  /** An entry belongs to a mapped resource of the same partition, on that resource's chunks. */
  ghost predicate Mapped(s: State)
    requires Keys(s)
  {
    forall os, c :: os in s.chunks && 0 <= c < MAX_CHUNKS && s.chunks[os][c].Some? ==>
                      var id := s.chunks[os][c].value;
                      id in s.tree.owner && s.tree.owner[id] == os && id in s.tree.mapped && Covers(s.lci[id], c)
  }

  /** The resources that translate are the mapped ones that are not rescinded. */
  ghost predicate Enabled(s: State) {
    forall id :: id in s.tree.enabled <==> id in s.tree.owner && id in s.tree.mapped && id !in s.tree.rescinded
  }

  ghost predicate Live(s: State, id: Id) {
    id in s.tree.owner && id !in s.tree.rescinded
  }

  ghost predicate Apart(a: Lci, b: Lci) {
    !Overlap(a.raddr, a.size, b.raddr, b.size)
  }

  /** What one partition holds is physically disjoint. */
  ghost predicate Disjoint(s: State)
    requires Keys(s)
  {
    forall a, b :: Live(s, a) && Live(s, b) && a != b && s.tree.owner[a] == s.tree.owner[b] ==>
                     Apart(s.lci[a], s.lci[b])
  }

  ghost predicate Within(l: Lci, p: Lci) {
    p.raddr <= l.raddr && l.raddr + l.size <= p.raddr + p.size
  }

  /** Addresses do not wrap, logical and physical addresses agree within a chunk, and a granted
      range lies inside the range it was granted from. */
  ghost predicate RangesOk(s: State) {
    && (forall id :: id in s.lci ==> Fits(s.lci[id].raddr, s.lci[id].size) && Fits(s.lci[id].laddr, s.lci[id].size)
                                     && s.lci[id].laddr % CHUNK == s.lci[id].raddr % CHUNK)
    && (forall id :: id in s.lci && s.lci[id].source.Some? ==>
                       var p := s.lci[id].source.value;
                       p < id && p in s.lci && Within(s.lci[id], s.lci[p]))
  }

  /** A resource has no entries, or one on each of its chunks; until it is accepted its logical
      address is the chunk offset of its physical one. */
  ghost predicate SolidAt(p: seq<Option<Id>>, l: Lci, id: Id, mapped: bool) {
    && (Absent(p, id) || Occupies(p, id, l.laddr / CHUNK, ChunksFor(l.size, l.laddr)))
    && (!mapped ==> l.laddr == l.raddr % CHUNK)
  }

  ghost predicate Solid(s: State)
    requires Keys(s)
  {
    forall id :: id in s.tree.owner && s.tree.owner[id] in s.chunks ==>
                   SolidAt(s.chunks[s.tree.owner[id]], s.lci[id], id, id in s.tree.mapped)
  }

  ghost predicate Absent(p: seq<Option<Id>>, id: Id) {
    forall c :: 0 <= c < |p| ==> p[c] != Some(id)
  }

  ghost predicate Counted(s: State) {
    s.destroyed <= s.tree.rescinded && s.count == |s.tree.owner.Keys| - |s.destroyed|
  }

  ghost predicate Shape(s: State) {
    && R.Keys(s.tree) && Keys(s) && s.tree.mapped <= s.tree.owner.Keys
    && forall x :: x in s.tree.owner ==> s.tree.owner[x] in s.tree.held
  }

  /** A live resource hangs off the one it was granted from, and that one is live. */
  ghost predicate Sourced(s: State)
    requires R.Keys(s.tree) && Keys(s)
  {
    forall id :: Live(s, id) ==>
                   && s.tree.parent[id] == s.lci[id].source
                   && (s.lci[id].source.Some? ==> Live(s, s.lci[id].source.value))
  }

  ghost predicate Inv(s: State) {
    && R.Ok(s.tree) && Shape(s) && Mapped(s) && Solid(s) && Enabled(s) && Disjoint(s) && RangesOk(s)
    && Counted(s) && Sourced(s)
  }

  // ---------------------------------------------------------------------------------------------
  // What a state with the invariant guarantees

  lemma TranslateExact(l: Lci, laddr: nat, len: nat)
    requires Fits(l.laddr, l.size) && laddr + 1 < WORD && 0 < len < WORD && Translate(l, true, laddr, len) != INVALID
    ensures Translate(l, true, laddr, len) == laddr - l.laddr + l.raddr && l.laddr <= laddr < l.laddr + l.size
    ensures laddr + len <= l.laddr + l.size <==> laddr + len < WORD
  {
    AddWraps(laddr, len);
    AddWraps(Add(laddr, len), WORD - 1);
    AddWraps(laddr, 1);
    AddWraps(Add(Add(laddr, len), WORD - 1), 1);
    AddWraps(l.laddr, l.size);
    hide Add;
  }

  /** A successful translation lies wholly inside one enabled resource of the partition, exactly
      when the request itself does not wrap around. */
  lemma TranslationInside(s: State, os: R.Os, laddr: nat, len: nat) returns (id: Id)
    requires Inv(s) && laddr < MAX_CHUNKS * CHUNK && 0 < len < WORD && ToPhysical(s, os, laddr, len) != INVALID
    ensures Source(s, os, laddr) == Some(id) && id in s.lci && id in s.tree.enabled && Live(s, id)
    ensures s.tree.owner[id] == os
    ensures var l := s.lci[id];
            && ToPhysical(s, os, laddr, len) == laddr - l.laddr + l.raddr
            && l.laddr <= laddr < l.laddr + l.size
            && (laddr + len <= l.laddr + l.size <==> laddr + len < WORD)
  {
    hide Translate, R.Ok, Disjoint, Counted, Solid, Sourced;
    id := Source(s, os, laddr).value;
    TranslateDisabled(s.lci[id], laddr, len);
    TranslateExact(s.lci[id], laddr, len);
  }

  lemma TranslateDisabled(l: Lci, laddr: nat, len: nat)
    ensures Translate(l, false, laddr, len) == INVALID
  {
  }

  /** Two logical addresses of one partition never translate to the same physical address. */
  lemma Injective(s: State, os: R.Os, x: nat, y: nat)
    requires Inv(s) && x < MAX_CHUNKS * CHUNK && y < MAX_CHUNKS * CHUNK && x != y
    requires ToPhysical(s, os, x, 1) != INVALID && ToPhysical(s, os, y, 1) != INVALID
    ensures ToPhysical(s, os, x, 1) != ToPhysical(s, os, y, 1)
  {
    hide ToPhysical, Source, Mapped, Solid, Enabled, Counted, RangesOk, R.Ok, Sourced;
    var a := TranslationInside(s, os, x, 1);
    var b := TranslationInside(s, os, y, 1);
    if a != b {
      assert Apart(s.lci[a], s.lci[b]);
      assert Inside(s.lci[a].raddr, s.lci[a].size, ToPhysical(s, os, x, 1));
      assert Inside(s.lci[b].raddr, s.lci[b].size, ToPhysical(s, os, y, 1));
    }
  }

  // ---------------------------------------------------------------------------------------------
  // The steps

  /** The identities `id` and tables `after` that a step is said to have drawn are those of the
      resource tree operations. */
  datatype Step =
    | Define(os: R.Os, base: nat, size: nat, id: Id)
    | Grant(src: R.Os, laddr: nat, size: nat, dest: R.Os, id: Id)
    | Accept(id: Id, at: Option<nat>)
    | Mark(start: Id, q: seq<Id>, after: R.Table)
    | Die(os: R.Os, todo: seq<Id>, after: R.Table)
    | Cleanup(id: Id)

  ghost predicate Fresh(s: State, id: Id) {
    forall x :: x in s.tree.owner ==> x < id
  }

  /** resource_conflict finds nothing among what the partition holds. */
  ghost predicate NoConflict(s: State, os: R.Os, raddr: nat, size: nat)
    requires Keys(s) && os in s.tree.held
  {
    forall r :: r in s.tree.held[os] && r in s.lci && r !in s.tree.rescinded ==>
                  !RangesConflict(s.lci[r].raddr, s.lci[r].size, raddr, size)
  }

  /** mem_grant takes the size phys_mem_export returns for an error code if it is negative as a
      signed word. */
  predicate Positive(size: nat) {
    size < WORD / 2
  }

  /** A logical address is too small for such a size to wrap. */
  lemma GrantFits(s: State, src: R.Os, laddr: nat, size: nat)
    requires Keys(s) && Source(s, src, laddr).Some? && Positive(size)
    ensures laddr < MAX_CHUNKS * CHUNK && Fits(laddr, size)
  {
  }

  ghost predicate CanStep(s: State, e: Step)
    requires Shape(s)
  {
    match e
    case Define(os, base, size, id) =>
      os in s.tree.held && 0 < size && Fits(base, size) && Fresh(s, id) && NoConflict(s, os, base, size)
    case Grant(src, laddr, size, dest, id) =>
      var p := Source(s, src, laddr);
      && p.Some? && p.value in s.tree.owner && dest in s.tree.held && Fresh(s, id) && Live(s, p.value)
      && var l := s.lci[p.value];
         && RangeSubset(l.laddr, l.size, laddr, size) && Positive(size)
         && NoConflict(s, dest, l.raddr + (laddr - l.laddr), size)
    case Accept(id, at) =>
      && Live(s, id) && id !in s.tree.mapped
      && var l := s.lci[id];
         var n := ChunksFor(l.size, l.laddr);
         && (2 * l.size > CHUNK || l.laddr % CHUNK + l.size >= CHUNK) && n <= MAX_CHUNKS
         && (at.Some? ==> at.value + n <= MAX_CHUNKS
                          && forall c :: at.value <= c < at.value + n ==> s.chunks[s.tree.owner[id]][c].None?)
    case Mark(start, q, after) => R.Rescinds(s.tree, start, None, after, q)
    case Die(os, todo, after) => os in s.tree.held && R.Dead(s.tree, os, after, todo)
    case Cleanup(id) => id in s.tree.rescinded && id !in s.destroyed
  }

  ghost function NewResource(s: State, id: Id, parent: Option<Id>, os: R.Os, raddr: nat, size: nat): State
    requires Shape(s) && os in s.tree.held && (parent.Some? ==> parent.value in s.tree.owner)
  {
    s.(tree := R.Insert(s.tree, id, parent, os),
       lci := s.lci[id := Lci(raddr, raddr % CHUNK, size, parent)],
       count := s.count + 1)
  }

  ghost function DoAccept(s: State, id: Id, at: Option<nat>): State
    requires Shape(s) && CanStep(s, Accept(id, at))
  {
    var l, os := s.lci[id], s.tree.owner[id];
    var t := s.tree.(mapped := s.tree.mapped + {id}, enabled := s.tree.enabled + {id});
    if at.None? then s.(tree := t)
    else
      s.(tree := t,
         lci := s.lci[id := l.(laddr := at.value * CHUNK + l.laddr % CHUNK)],
         chunks := s.chunks[os := Placed(s.chunks[os], at.value, ChunksFor(l.size, l.laddr), id)])
  }

  ghost function DoCleanup(s: State, id: Id): State
    requires Shape(s) && CanStep(s, Cleanup(id))
  {
    var os := s.tree.owner[id];
    var held := s.tree.held[os := Without(s.tree.held[os], id)];
    s.(tree := s.tree.(held := held, enabled := s.tree.enabled - {id}),
       chunks := if id in s.tree.mapped then s.chunks[os := Erased(s.chunks[os], id)] else s.chunks,
       destroyed := s.destroyed + {id},
       count := s.count - 1)
  }

  ghost function Next(s: State, e: Step): State
    requires Shape(s) && CanStep(s, e)
  {
    match e
    case Define(os, base, size, id) => NewResource(s, id, None, os, base, size)
    case Grant(src, laddr, size, dest, id) =>
      var p := Source(s, src, laddr).value;
      NewResource(s, id, Some(p), dest, s.lci[p].raddr + (laddr - s.lci[p].laddr), size)
    case Accept(id, at) => DoAccept(s, id, at)
    case Mark(_, _, after) => s.(tree := after)
    case Die(_, _, after) => s.(tree := after)
    case Cleanup(id) => DoCleanup(s, id)
  }

  // ---------------------------------------------------------------------------------------------
  // Every step keeps the invariant

  /** A new resource without a conflict in the partition that receives it. */
  ghost predicate CanAdd(s: State, id: Id, parent: Option<Id>, os: R.Os)
    requires Shape(s)
  {
    os in s.tree.held && Fresh(s, id) && (parent.Some? ==> Live(s, parent.value))
  }

  lemma NewTree(s: State, id: Id, parent: Option<Id>, os: R.Os, raddr: nat, size: nat)
    requires R.Ok(s.tree) && Shape(s) && CanAdd(s, id, parent, os)
    ensures R.Ok(NewResource(s, id, parent, os, raddr, size).tree)
  {
    hide R.Insert, R.Ok;
    R.InsertKeepsOk(s.tree, id, parent, os);
  }

  lemma NewShape(s: State, id: Id, parent: Option<Id>, os: R.Os, raddr: nat, size: nat)
    requires Shape(s) && CanAdd(s, id, parent, os)
    ensures var r := NewResource(s, id, parent, os, raddr, size);
            && Shape(r) && r.tree.owner == s.tree.owner[id := os] && id !in s.tree.owner
            && r.tree.rescinded == s.tree.rescinded && r.tree.mapped == s.tree.mapped
            && r.tree.enabled == s.tree.enabled
            && r.chunks == s.chunks
  {
    var r := NewResource(s, id, parent, os, raddr, size);
    assert r.tree.owner.Keys == s.tree.owner.Keys + {id};
  }

  lemma NewApart(s: State, os: R.Os, raddr: nat, size: nat, a: Id, l: Lci)
    requires Shape(s) && RangesOk(s) && os in s.tree.held
    requires NoConflict(s, os, raddr, size) && R.Holds(s.tree, os, s.tree.held[os])
    requires Live(s, a) && s.tree.owner[a] == os && Fits(raddr, size) && l.raddr == raddr && l.size == size
    ensures Apart(s.lci[a], l) && Apart(l, s.lci[a])
  {
    hide Apart, RangesConflict, R.Sorted;
    assert a in s.tree.held[os];
    NoConflictApart(s.lci[a], l);
  }

  lemma NewDisjoint(s: State, id: Id, parent: Option<Id>, os: R.Os, raddr: nat, size: nat)
    requires Shape(s) && CanAdd(s, id, parent, os) && Disjoint(s) && RangesOk(s)
    requires Fits(raddr, size) && NoConflict(s, os, raddr, size)
    requires R.Holds(s.tree, os, s.tree.held[os])
    ensures Shape(NewResource(s, id, parent, os, raddr, size)) && Disjoint(NewResource(s, id, parent, os, raddr, size))
  {
    hide Apart, NoConflict, RangesOk, R.Insert, R.Holds, Disjoint;
    NewShape(s, id, parent, os, raddr, size);
    var r := NewResource(s, id, parent, os, raddr, size);
    forall a | Live(s, a) && s.tree.owner[a] == os
      ensures Apart(s.lci[a], r.lci[id]) && Apart(r.lci[id], s.lci[a])
    {
      NewApart(s, os, raddr, size, a, r.lci[id]);
    }
    DisjointMore(s, r, id);
  }

  /** One more range, apart from what its partition holds. */
  lemma DisjointMore(s: State, r: State, id: Id)
    requires Keys(s) && Keys(r) && Disjoint(s) && id !in s.tree.owner && id in r.tree.owner
    requires r.tree.owner == s.tree.owner[id := r.tree.owner[id]] && r.tree.rescinded == s.tree.rescinded
    requires forall a :: a in s.lci ==> r.lci[a] == s.lci[a]
    requires forall a :: Live(s, a) && s.tree.owner[a] == r.tree.owner[id] ==>
                         Apart(s.lci[a], r.lci[id]) && Apart(r.lci[id], s.lci[a])
    ensures Disjoint(r)
  {
    hide Apart;
    assert forall a :: Live(r, a) && a != id ==> Live(s, a);
  }

  lemma NoConflictApart(a: Lci, b: Lci)
    requires Fits(a.raddr, a.size) && Fits(b.raddr, b.size) && !RangesConflict(a.raddr, a.size, b.raddr, b.size)
    ensures Apart(a, b) && Apart(b, a)
  {
  }

  lemma NewMaps(s: State, id: Id, parent: Option<Id>, os: R.Os, raddr: nat, size: nat)
    requires Shape(s) && CanAdd(s, id, parent, os) && Mapped(s)
    ensures Shape(NewResource(s, id, parent, os, raddr, size)) && Mapped(NewResource(s, id, parent, os, raddr, size))
  {
    hide Covers, R.Insert;
    NewShape(s, id, parent, os, raddr, size);
  }

  lemma NewSolid(s: State, id: Id, parent: Option<Id>, os: R.Os, raddr: nat, size: nat)
    requires Shape(s) && CanAdd(s, id, parent, os) && Mapped(s) && Solid(s)
    ensures Shape(NewResource(s, id, parent, os, raddr, size)) && Solid(NewResource(s, id, parent, os, raddr, size))
  {
    hide Covers, R.Insert, Occupies, ChunksFor;
    NewShape(s, id, parent, os, raddr, size);
    assert Absent(s.chunks[os], id);
    hide Absent;
  }

  lemma NewCounted(s: State, id: Id, parent: Option<Id>, os: R.Os, raddr: nat, size: nat)
    requires Shape(s) && CanAdd(s, id, parent, os) && Enabled(s) && Counted(s)
    ensures var r := NewResource(s, id, parent, os, raddr, size); Enabled(r) && Counted(r)
  {
  }

  lemma NewRanges(s: State, id: Id, parent: Option<Id>, os: R.Os, raddr: nat, size: nat)
    requires Shape(s) && CanAdd(s, id, parent, os) && RangesOk(s) && Fits(raddr, size)
    requires parent.Some? ==> var p := s.lci[parent.value]; p.raddr <= raddr && raddr + size <= p.raddr + p.size
    ensures RangesOk(NewResource(s, id, parent, os, raddr, size))
  {
    hide R.Insert;
  }

  lemma NewSourced(s: State, id: Id, parent: Option<Id>, os: R.Os, raddr: nat, size: nat)
    requires Shape(s) && CanAdd(s, id, parent, os) && Sourced(s)
    ensures Shape(NewResource(s, id, parent, os, raddr, size)) && Sourced(NewResource(s, id, parent, os, raddr, size))
  {
    NewShape(s, id, parent, os, raddr, size);
    var r := NewResource(s, id, parent, os, raddr, size);
    assert forall x :: Live(r, x) <==> Live(s, x) || x == id;
  }

  lemma NewKeeps(s: State, id: Id, parent: Option<Id>, os: R.Os, raddr: nat, size: nat)
    requires Inv(s) && CanAdd(s, id, parent, os) && Fits(raddr, size) && NoConflict(s, os, raddr, size)
    requires parent.Some? ==> var p := s.lci[parent.value]; p.raddr <= raddr && raddr + size <= p.raddr + p.size
    ensures Inv(NewResource(s, id, parent, os, raddr, size))
  {
    hide R.Ok, R.Wf, R.Holds, R.Insert, NewResource, Mapped, Solid, Enabled, Counted, Disjoint, RangesOk, NoConflict,
         Sourced;
    R.OkWf(s.tree);
    NewTree(s, id, parent, os, raddr, size);
    NewShape(s, id, parent, os, raddr, size);
    NewDisjoint(s, id, parent, os, raddr, size);
    NewMaps(s, id, parent, os, raddr, size);
    NewSolid(s, id, parent, os, raddr, size);
    NewCounted(s, id, parent, os, raddr, size);
    NewRanges(s, id, parent, os, raddr, size);
    NewSourced(s, id, parent, os, raddr, size);
  }

  // accept

  /** Moving a resource to chunk i keeps its offset within the chunk and its number of chunks. */
  lemma AcceptedAddress(l: Lci, i: nat)
    requires i + ChunksFor(l.size, l.laddr) <= MAX_CHUNKS
    ensures var laddr := i * CHUNK + l.laddr % CHUNK;
            && laddr / CHUNK == i && laddr % CHUNK == l.laddr % CHUNK && Fits(laddr, l.size)
            && ChunksFor(l.size, laddr) == ChunksFor(l.size, l.laddr)
  {
  }

  lemma AcceptShape(s: State, id: Id, at: Option<nat>)
    requires Shape(s) && CanStep(s, Accept(id, at))
    ensures Shape(DoAccept(s, id, at))
  {
    hide Placed, ChunksFor;
  }

  lemma MoveRanges(s: State, r: State, id: Id, laddr: nat)
    requires RangesOk(s) && id in s.lci && r.lci == s.lci[id := s.lci[id].(laddr := laddr)]
    requires Fits(laddr, s.lci[id].size) && laddr % CHUNK == s.lci[id].laddr % CHUNK
    ensures RangesOk(r)
  {
  }

  lemma AcceptRanges(s: State, id: Id, at: Option<nat>)
    requires Shape(s) && RangesOk(s) && CanStep(s, Accept(id, at))
    ensures var r := DoAccept(s, id, at);
            && Shape(r) && RangesOk(r)
            && (at.Some? ==>
                  && r.lci[id].laddr / CHUNK == at.value
                  && ChunksFor(r.lci[id].size, r.lci[id].laddr) == ChunksFor(s.lci[id].size, s.lci[id].laddr))
  {
    hide Placed, ChunksFor, RangesOk;
    AcceptShape(s, id, at);
    if at.Some? {
      AcceptedAddress(s.lci[id], at.value);
      MoveRanges(s, DoAccept(s, id, at), id, at.value * CHUNK + s.lci[id].laddr % CHUNK);
    } else {
      RangesFrame(s, DoAccept(s, id, at));
    }
  }

  lemma RangesFrame(s: State, r: State)
    requires RangesOk(s) && r.lci == s.lci
    ensures RangesOk(r)
  {
  }

  lemma AcceptMaps(s: State, id: Id, at: Option<nat>)
    requires Shape(s) && RangesOk(s) && Mapped(s) && CanStep(s, Accept(id, at)) && Shape(DoAccept(s, id, at))
    ensures Mapped(DoAccept(s, id, at))
  {
    AcceptRanges(s, id, at);
    var r, mine := DoAccept(s, id, at), s.tree.owner[id];
    hide RangesOk, ChunksFor;
    forall os, c | os in r.chunks && 0 <= c < MAX_CHUNKS && r.chunks[os][c].Some?
      ensures var x := r.chunks[os][c].value;
              x in r.tree.owner && r.tree.owner[x] == os && x in r.tree.mapped && Covers(r.lci[x], c)
    {
      if r.chunks[os][c] != s.chunks[os][c] {
        assert os == mine && r.chunks[os][c] == Some(id);
      }
    }
  }

  /** Filling empty chunks with id leaves the entries of all others alone. */
  lemma PlacedOthers(p: seq<Option<Id>>, i: nat, n: nat, id: Id, x: Id, j: nat, m: nat)
    requires i + n <= |p| && Absent(p, id) && forall c :: i <= c < i + n ==> p[c].None?
    ensures Occupies(Placed(p, i, n, id), id, i, n)
    ensures x != id && Absent(p, x) ==> Absent(Placed(p, i, n, id), x)
    ensures x != id && Occupies(p, x, j, m) ==> Occupies(Placed(p, i, n, id), x, j, m)
  {
    var r := Placed(p, i, n, id);
    assert forall c :: 0 <= c < |p| ==> r[c] == if i <= c < i + n then Some(id) else p[c];
    assert x != id ==> forall c :: 0 <= c < |p| ==> (r[c] == Some(x) <==> p[c] == Some(x));
  }

  lemma PlacedSolid(p: seq<Option<Id>>, i: nat, id: Id, l: Lci, x: Id, k: Lci, mapped: bool)
    requires SolidAt(p, k, x, mapped) && Absent(p, id) && (x == id ==> k == l)
    requires var n := ChunksFor(l.size, l.laddr); i + n <= |p| && forall c :: i <= c < i + n ==> p[c].None?
    ensures var r := Placed(p, i, ChunksFor(l.size, l.laddr), id);
            if x == id then SolidAt(r, l.(laddr := i * CHUNK + l.laddr % CHUNK), id, true) else SolidAt(r, k, x, mapped)
  {
    hide Occupies, Absent, Placed;
    PlacedOthers(p, i, ChunksFor(l.size, l.laddr), id, x, k.laddr / CHUNK, ChunksFor(k.size, k.laddr));
  }

  lemma AcceptSolid(s: State, id: Id, at: Option<nat>)
    requires Shape(s) && RangesOk(s) && Mapped(s) && Solid(s) && CanStep(s, Accept(id, at))
    requires Shape(DoAccept(s, id, at))
    ensures Solid(DoAccept(s, id, at))
  {
    var r, mine := DoAccept(s, id, at), s.tree.owner[id];
    assert Absent(s.chunks[mine], id);
    hide RangesOk, ChunksFor, Occupies, Absent, Placed, Mapped;
    forall x | x in s.tree.owner
      ensures SolidAt(r.chunks[s.tree.owner[x]], r.lci[x], x, x in r.tree.mapped)
    {
      assert SolidAt(s.chunks[s.tree.owner[x]], s.lci[x], x, x in s.tree.mapped);
      if at.Some? && s.tree.owner[x] == mine {
        PlacedSolid(s.chunks[mine], at.value, id, s.lci[id], x, s.lci[x], x in s.tree.mapped);
      }
    }
  }

  /** Nothing new is live and no physical range has moved. */
  lemma DisjointFrame(s: State, r: State)
    requires Keys(s) && Keys(r) && Disjoint(s) && r.tree.owner == s.tree.owner && s.tree.rescinded <= r.tree.rescinded
    requires forall x :: x in s.lci ==> r.lci[x].raddr == s.lci[x].raddr && r.lci[x].size == s.lci[x].size
    ensures Disjoint(r)
  {
  }

  /** No link and no record of a source has changed, and nothing became live or rescinded. */
  lemma SourcedFrame(s: State, r: State)
    requires R.Keys(s.tree) && Keys(s) && R.Keys(r.tree) && Keys(r) && Sourced(s)
    requires r.tree.owner == s.tree.owner && r.tree.rescinded == s.tree.rescinded && r.tree.parent == s.tree.parent
    requires forall x :: x in s.lci ==> r.lci[x].source == s.lci[x].source
    ensures Sourced(r)
  {
    assert forall x :: Live(r, x) <==> Live(s, x);
  }

  lemma AcceptRest(s: State, id: Id, at: Option<nat>)
    requires Shape(s) && Enabled(s) && Counted(s) && CanStep(s, Accept(id, at)) && Shape(DoAccept(s, id, at))
    ensures Enabled(DoAccept(s, id, at)) && Counted(DoAccept(s, id, at))
  {
    hide Placed, ChunksFor, Keys;
  }

  lemma AcceptFrame(s: State, id: Id, at: Option<nat>)
    requires Shape(s) && Disjoint(s) && Sourced(s) && CanStep(s, Accept(id, at)) && Shape(DoAccept(s, id, at))
    ensures Disjoint(DoAccept(s, id, at)) && Sourced(DoAccept(s, id, at))
  {
    hide Disjoint, Sourced, Placed, ChunksFor;
    DisjointFrame(s, DoAccept(s, id, at));
    SourcedFrame(s, DoAccept(s, id, at));
  }

  lemma AcceptKeeps(s: State, id: Id, at: Option<nat>)
    requires Inv(s) && CanStep(s, Accept(id, at))
    ensures Inv(DoAccept(s, id, at))
  {
    hide R.Ok, Mapped, Solid, Enabled, Counted, Disjoint, RangesOk, Sourced, CanStep;
    R.FlagsKeepOk(s.tree, DoAccept(s, id, at).tree);
    AcceptRanges(s, id, at);
    AcceptMaps(s, id, at);
    AcceptSolid(s, id, at);
    AcceptRest(s, id, at);
    AcceptFrame(s, id, at);
  }

  // mark, death, cleanup

  /** What marking does to the tree, as far as memory is concerned. */
  ghost predicate Marks(t: R.Table, r: R.Table, gone: set<Id>) {
    && r.owner == t.owner && r.mapped == t.mapped && r.held.Keys == t.held.Keys && R.Keys(r)
    && r.rescinded == t.rescinded + gone && r.enabled == t.enabled - (gone * t.mapped)
  }

  /** Links disappear only together with an end, and what hangs off a marked resource is marked. */
  ghost predicate Severs(t: R.Table, r: R.Table, gone: set<Id>) {
    && R.Wf(t) && R.Wf(r)
    && (forall p, c :: R.Link(r, p, c) <==> R.Link(t, p, c) && p !in r.rescinded && c !in r.rescinded)
    && forall p, c :: R.Link(t, p, c) && p in gone ==> c in gone
  }

  lemma MarkSourced(s: State, after: R.Table, gone: set<Id>)
    requires Shape(s) && Sourced(s) && Marks(s.tree, after, gone) && Severs(s.tree, after, gone)
    ensures var r := s.(tree := after); Keys(r) && Sourced(r)
  {
    hide Distinct;
    var r := s.(tree := after);
    forall id | Live(r, id)
      ensures after.parent[id] == s.lci[id].source
      ensures s.lci[id].source.Some? ==> Live(r, s.lci[id].source.value)
    {
      assert Live(s, id);
      if s.lci[id].source.Some? {
        assert R.Link(s.tree, s.lci[id].source.value, id);
        assert R.Link(after, s.lci[id].source.value, id);
      } else {
        assert after.parent[id].Some? ==> R.Link(s.tree, after.parent[id].value, id);
      }
    }
  }

  lemma MarkKeeps(s: State, after: R.Table, gone: set<Id>)
    requires Inv(s) && R.Ok(after) && Marks(s.tree, after, gone) && Severs(s.tree, after, gone)
    ensures Inv(s.(tree := after))
  {
    hide R.Ok, Mapped, Solid, Enabled, Disjoint, RangesOk, Sourced, Severs, Counted, Marks;
    var r := s.(tree := after);
    MarkShape(s, after, gone);
    MarkSourced(s, after, gone);
    DisjointFrame(s, r);
    RangesFrame(s, r);
    MarkMaps(s, after, gone);
  }

  lemma MarkShape(s: State, after: R.Table, gone: set<Id>)
    requires Shape(s) && Counted(s) && Marks(s.tree, after, gone)
    ensures var r := s.(tree := after); Shape(r) && Counted(r)
    ensures after.owner == s.tree.owner && s.tree.rescinded <= after.rescinded
  {
  }

  lemma MarkMaps(s: State, after: R.Table, gone: set<Id>)
    requires Shape(s) && Mapped(s) && Solid(s) && Enabled(s) && Marks(s.tree, after, gone)
    ensures var r := s.(tree := after); Keys(r) && Mapped(r) && Solid(r) && Enabled(r)
  {
    hide Covers, Occupies, Absent, ChunksFor;
  }

  lemma RescindSevers(t: R.Table, start: Id, q: seq<Id>, after: R.Table)
    requires R.Rescinds(t, start, None, after, q)
    ensures Severs(t, after, R.SetOf(q))
  {
    hide R.Wf, R.Stripped, R.Desc, R.ParentsFirst;
    forall p, c
      ensures R.Link(after, p, c) <==> R.Link(t, p, c) && p !in after.rescinded && c !in after.rescinded
    {
      R.RescindLinks(t, start, None, after, q, p, c);
    }
    forall p, c | R.Link(t, p, c) && p in R.SetOf(q)
      ensures c in R.SetOf(q)
    {
      R.RescindClosed(t, start, after, q, p, c);
    }
  }

  lemma DeathSevers(t: R.Table, os: R.Os, todo: seq<Id>, after: R.Table)
    requires R.Wf(t) && os in t.held && R.Dead(t, os, after, todo)
    ensures Severs(t, after, R.SetOf(todo))
  {
    hide R.Doomed, R.InOrder, R.Link;
    forall p, c | R.Link(t, p, c) && p in R.SetOf(todo)
      ensures c in R.SetOf(todo)
    {
      R.DoomedClosed(t, t.held[os], p, c);
    }
  }

  lemma RescindMarks(s: State, start: Id, q: seq<Id>, after: R.Table)
    requires Inv(s) && R.Rescinds(s.tree, start, None, after, q)
    ensures R.Ok(after) && Marks(s.tree, after, R.SetOf(q)) && Severs(s.tree, after, R.SetOf(q))
  {
    hide Mapped, Solid, Enabled, Disjoint, RangesOk, Counted, Sourced, Severs;
    RescindSevers(s.tree, start, q, after);
    R.RescindKeepsOk(s.tree, start, None, after, q);
    R.RescindSummary(s.tree, start, None, after, q);
    R.OkWf(after);
    R.WfKeys(after);
  }

  lemma DeathMarks(s: State, os: R.Os, todo: seq<Id>, after: R.Table)
    requires Inv(s) && os in s.tree.held && R.Dead(s.tree, os, after, todo)
    ensures R.Ok(after) && Marks(s.tree, after, R.SetOf(todo)) && Severs(s.tree, after, R.SetOf(todo))
  {
    hide Mapped, Solid, Enabled, Disjoint, RangesOk, Counted, Sourced, Severs, R.Doomed, R.InOrder;
    DeathSevers(s.tree, os, todo, after);
    R.DeathKeepsOk(s.tree, os, after, todo);
    R.OkWf(after);
    R.WfKeys(after);
  }

  lemma CleanupTree(t: R.Table, os: R.Os, id: Id)
    requires R.Ok(t) && os in t.held && id in t.rescinded
    ensures R.Ok(t.(held := t.held[os := Without(t.held[os], id)], enabled := t.enabled - {id}))
  {
    hide R.Ok, Without;
    R.DropKeepsOk(t, os, id);
    var m := t.(held := t.held[os := Without(t.held[os], id)]);
    R.FlagsKeepOk(m, m.(enabled := m.enabled - {id}));
  }

  lemma ErasedOthers(p: seq<Option<Id>>, id: Id, x: Id, j: nat, m: nat)
    ensures Absent(Erased(p, id), id)
    ensures Absent(p, x) ==> Absent(Erased(p, id), x)
    ensures x != id && Occupies(p, x, j, m) ==> Occupies(Erased(p, id), x, j, m)
  {
  }

  lemma CleanupSolid(s: State, id: Id)
    requires Shape(s) && Solid(s) && CanStep(s, Cleanup(id)) && Shape(DoCleanup(s, id))
    ensures Solid(DoCleanup(s, id))
  {
    hide ChunksFor, Occupies, Absent, Erased;
    var r, mine := DoCleanup(s, id), s.tree.owner[id];
    forall x | x in s.tree.owner && s.tree.owner[x] == mine
      ensures var p, k := r.chunks[mine], r.lci[x];
              Absent(p, x) || Occupies(p, x, k.laddr / CHUNK, ChunksFor(k.size, k.laddr))
    {
      ErasedOthers(s.chunks[mine], id, x, s.lci[x].laddr / CHUNK, ChunksFor(s.lci[x].size, s.lci[x].laddr));
    }
  }

  lemma CleanupMaps(s: State, id: Id)
    requires Shape(s) && Mapped(s) && CanStep(s, Cleanup(id))
    ensures Shape(DoCleanup(s, id)) && Mapped(DoCleanup(s, id))
  {
    hide Covers, Without;
    assert Shape(DoCleanup(s, id));
  }

  lemma CleanupRest(s: State, id: Id)
    requires Shape(s) && Enabled(s) && Counted(s) && CanStep(s, Cleanup(id)) && Shape(DoCleanup(s, id))
    ensures Enabled(DoCleanup(s, id)) && Counted(DoCleanup(s, id))
  {
    hide Without, Erased, Keys;
  }

  lemma CleanupFrame(s: State, id: Id)
    requires Shape(s) && Disjoint(s) && Sourced(s) && CanStep(s, Cleanup(id)) && Shape(DoCleanup(s, id))
    ensures Disjoint(DoCleanup(s, id)) && Sourced(DoCleanup(s, id))
  {
    hide Disjoint, Without, Erased, Sourced;
    DisjointFrame(s, DoCleanup(s, id));
    SourcedFrame(s, DoCleanup(s, id));
  }

  lemma CleanupKeeps(s: State, id: Id)
    requires Inv(s) && CanStep(s, Cleanup(id))
    ensures Inv(DoCleanup(s, id))
  {
    hide R.Ok, Mapped, Solid, Enabled, Counted, Disjoint, Sourced;
    CleanupTree(s.tree, s.tree.owner[id], id);
    CleanupMaps(s, id);
    CleanupRest(s, id);
    CleanupFrame(s, id);
    CleanupSolid(s, id);
  }

  /** What phys_mem_export lets through lies inside the resource it is taken from. */
  lemma GrantInside(l: Lci, laddr: nat, size: nat)
    requires Fits(l.raddr, l.size) && Fits(l.laddr, l.size) && Fits(laddr, size)
    requires RangeSubset(l.laddr, l.size, laddr, size)
    ensures l.laddr <= laddr
    ensures var raddr := l.raddr + (laddr - l.laddr);
            l.raddr <= raddr && raddr + size <= l.raddr + l.size && Fits(raddr, size)
  {
    SubsetExactly(l.laddr, l.size, laddr, size);
    hide RangeSubset;
  }

  lemma GrantKeeps(s: State, src: R.Os, laddr: nat, size: nat, dest: R.Os, id: Id)
    requires Inv(s) && CanStep(s, Grant(src, laddr, size, dest, id))
    ensures Inv(Next(s, Grant(src, laddr, size, dest, id)))
  {
    hide Inv, R.Ok, RangesOk, NoConflict, RangeSubset, NewResource;
    InvShape(s);
    var p := Source(s, src, laddr).value;
    RangeFits(s, p);
    GrantFits(s, src, laddr, size);
    GrantInside(s.lci[p], laddr, size);
    NewKeeps(s, id, Some(p), dest, s.lci[p].raddr + (laddr - s.lci[p].laddr), size);
  }

  lemma RangeFits(s: State, id: Id)
    requires RangesOk(s) && id in s.lci
    ensures Fits(s.lci[id].raddr, s.lci[id].size) && Fits(s.lci[id].laddr, s.lci[id].size)
  {
  }

  lemma StepKeeps(s: State, e: Step)
    requires Inv(s) && CanStep(s, e)
    ensures Inv(Next(s, e))
  {
    hide Inv, R.Ok, NoConflict, Severs;
    match e
    case Define(os, base, size, id) => NewKeeps(s, id, None, os, base, size);
    case Grant(src, laddr, size, dest, id) => GrantKeeps(s, src, laddr, size, dest, id);
    case Accept(id, at) => AcceptKeeps(s, id, at);
    case Mark(start, q, after) => RescindMarks(s, start, q, after); MarkKeeps(s, after, R.SetOf(q));
    case Die(os, todo, after) => DeathMarks(s, os, todo, after); MarkKeeps(s, after, R.SetOf(todo));
    case Cleanup(id) => CleanupKeeps(s, id);
  }

  // ---------------------------------------------------------------------------------------------
  // Over every run

  /** The states of a run, one more than its steps. */
  ghost predicate Run(b: seq<State>, steps: seq<Step>) {
    && |b| == |steps| + 1
    && forall i :: 0 <= i < |steps| ==> Shape(b[i]) && CanStep(b[i], steps[i]) && b[i + 1] == Next(b[i], steps[i])
  }

  lemma InitInv(partitions: set<R.Os>)
    ensures Inv(Init(partitions))
  {
  }

  lemma {:induction false} RunInv(partitions: set<R.Os>, b: seq<State>, steps: seq<Step>, i: nat)
    requires Run(b, steps) && b[0] == Init(partitions) && i < |b|
    ensures Inv(b[i])
    decreases i
  {
    hide Inv, CanStep, Next;
    if i == 0 {
      InitInv(partitions);
    } else {
      RunInv(partitions, b, steps, i - 1);
      StepKeeps(b[i - 1], steps[i - 1]);
    }
  }

  /** In every state of every run, no two logical addresses of a partition share a physical one. */
  lemma AddressSpacesInjective(partitions: set<R.Os>, b: seq<State>, steps: seq<Step>, i: nat, os: R.Os, x: nat, y: nat)
    requires Run(b, steps) && b[0] == Init(partitions) && i < |b|
    requires x < MAX_CHUNKS * CHUNK && y < MAX_CHUNKS * CHUNK && x != y
    ensures ToPhysical(b[i], os, x, 1) == ToPhysical(b[i], os, y, 1) ==> ToPhysical(b[i], os, x, 1) == INVALID
  {
    hide Inv, ToPhysical, Run;
    RunInv(partitions, b, steps, i);
    if ToPhysical(b[i], os, x, 1) != INVALID && ToPhysical(b[i], os, y, 1) != INVALID {
      Injective(b[i], os, x, y);
    }
  }

  /** The resource a grant ultimately stems from. */
  ghost function Root(s: State, id: Id): (r: Id)
    requires RangesOk(s) && id in s.lci
    ensures r in s.lci
    decreases id
  {
    if s.lci[id].source.None? then id else Root(s, s.lci[id].source.value)
  }

  /** Whatever the chain of grants, a resource stays inside the memory defined at its root. */
  lemma {:induction false} GrantContained(s: State, id: Id)
    requires RangesOk(s) && id in s.lci
    ensures s.lci[Root(s, id)].source.None? && Within(s.lci[id], s.lci[Root(s, id)])
    decreases id
  {
    if s.lci[id].source.Some? {
      GrantContained(s, s.lci[id].source.value);
    }
  }

  /** A translation keeps the offset within the chunk, and so within the page. */
  lemma TranslationAligned(s: State, os: R.Os, laddr: nat, len: nat)
    requires Inv(s) && laddr < MAX_CHUNKS * CHUNK && 0 < len < WORD && ToPhysical(s, os, laddr, len) != INVALID
    ensures ToPhysical(s, os, laddr, len) % CHUNK == laddr % CHUNK
  {
    hide Inv, ToPhysical, Source;
    var id := TranslationInside(s, os, laddr, len);
    SameOffset(s, id);
    ShiftOffset(laddr, s.lci[id].laddr, s.lci[id].raddr);
  }

  lemma SameOffset(s: State, id: Id)
    requires Inv(s) && id in s.lci
    ensures s.lci[id].laddr % CHUNK == s.lci[id].raddr % CHUNK
  {
  }

  lemma ShiftOffset(x: nat, l: nat, r: nat)
    requires l <= x && l % CHUNK == r % CHUNK
    ensures (x - l + r) % CHUNK == x % CHUNK
  {
    assert x - l + r == x + (r / CHUNK - l / CHUNK) * CHUNK;
  }

  /** Once marked, a resource translates nothing. */
  lemma RescindedSilent(s: State, os: R.Os, laddr: nat, len: nat, id: Id)
    requires Inv(s) && Source(s, os, laddr) == Some(id) && id in s.tree.rescinded
    ensures ToPhysical(s, os, laddr, len) == INVALID
  {
    assert id !in s.tree.enabled;
  }

  // ---------------------------------------------------------------------------------------------
  // Revocation reaches everything

  /** id is a, or was granted from it by any chain of grants. */
  ghost predicate GrantedFrom(s: State, a: Id, id: Id)
    requires RangesOk(s)
    decreases id
  {
    id == a || (id in s.lci && s.lci[id].source.Some? && GrantedFrom(s, a, s.lci[id].source.value))
  }

  /** A live resource comes from live resources only. */
  lemma {:induction false} LiveFromLive(s: State, a: Id, id: Id)
    requires Inv(s) && GrantedFrom(s, a, id) && Live(s, id)
    ensures Live(s, a)
    decreases id
  {
    hide R.Ok, Mapped, Solid, Enabled, Disjoint, Counted;
    if id != a {
      LiveFromLive(s, a, s.lci[id].source.value);
    }
  }

  /** What the record keeps: resources stay and stay rescinded, and the source, the owner and the
      physical range of a resource are never rewritten. */
  ghost predicate Records(s: State, r: State) {
    && s.tree.rescinded <= r.tree.rescinded
    && (forall x :: x in s.lci ==> x in r.lci && r.lci[x].source == s.lci[x].source
                                   && r.lci[x].raddr == s.lci[x].raddr && r.lci[x].size == s.lci[x].size)
    && (forall x :: x in s.tree.owner ==> x in r.tree.owner && r.tree.owner[x] == s.tree.owner[x])
  }

  lemma StepRecords(s: State, e: Step)
    requires Inv(s) && CanStep(s, e)
    ensures Records(s, Next(s, e))
  {
    hide Inv, R.Ok, NoConflict, Severs, Records, RangesOk, ChunksFor, Marks;
    InvShape(s);
    match e
    case Define(os, base, size, id) => NewRecords(s, id, None, os, base, size);
    case Grant(src, laddr, size, dest, id) =>
      var p := Source(s, src, laddr).value;
      NewRecords(s, id, Some(p), dest, s.lci[p].raddr + (laddr - s.lci[p].laddr), size);
    case Accept(id, at) => AcceptRecords(s, id, at);
    case Mark(start, q, after) => RescindMarks(s, start, q, after); MarkRecords(s, after, R.SetOf(q));
    case Die(os, todo, after) => DeathMarks(s, os, todo, after); MarkRecords(s, after, R.SetOf(todo));
    case Cleanup(id) => CleanupRecords(s, id);
  }

  lemma AcceptRecords(s: State, id: Id, at: Option<nat>)
    requires Shape(s) && CanStep(s, Accept(id, at))
    ensures Records(s, DoAccept(s, id, at))
  {
    hide Placed, ChunksFor;
  }

  lemma MarkRecords(s: State, after: R.Table, gone: set<Id>)
    requires Marks(s.tree, after, gone)
    ensures Records(s, s.(tree := after))
  {
  }

  lemma CleanupRecords(s: State, id: Id)
    requires Shape(s) && CanStep(s, Cleanup(id))
    ensures Records(s, DoCleanup(s, id))
  {
  }

  lemma NewRecords(s: State, id: Id, parent: Option<Id>, os: R.Os, raddr: nat, size: nat)
    requires Shape(s) && CanAdd(s, id, parent, os)
    ensures Records(s, NewResource(s, id, parent, os, raddr, size))
  {
    NewShape(s, id, parent, os, raddr, size);
  }

  lemma InvShape(s: State)
    requires Inv(s)
    ensures Shape(s) && RangesOk(s)
  {
  }

  lemma {:induction false} RunRecords(partitions: set<R.Os>, b: seq<State>, steps: seq<Step>, i: nat, j: nat)
    requires Run(b, steps) && b[0] == Init(partitions) && i <= j < |b|
    ensures Records(b[i], b[j])
    decreases j
  {
    hide Inv, CanStep, Next;
    if i < j {
      RunRecords(partitions, b, steps, i, j - 1);
      RunInv(partitions, b, steps, j - 1);
      StepRecords(b[j - 1], steps[j - 1]);
    }
  }

  /** A chain of grants stays on record. */
  lemma {:induction false} ChainStays(s: State, r: State, a: Id, id: Id)
    requires RangesOk(s) && RangesOk(r) && Records(s, r) && GrantedFrom(s, a, id)
    ensures GrantedFrom(r, a, id)
    decreases id
  {
    if id != a {
      ChainStays(s, r, a, s.lci[id].source.value);
    }
  }

  /** From the moment a resource is rescinded, in every later state of every run, nothing translates
      through anything granted from it, by however many grants. */
  lemma RevocationReachesAll(partitions: set<R.Os>, b: seq<State>, steps: seq<Step>, i: nat, j: nat, a: Id,
                             id: Id, os: R.Os, laddr: nat, len: nat)
    requires Run(b, steps) && b[0] == Init(partitions) && i <= j < |b| && a in b[i].tree.rescinded
    ensures RangesOk(b[i]) && RangesOk(b[j])
    ensures GrantedFrom(b[i], a, id) ==> GrantedFrom(b[j], a, id)
    ensures GrantedFrom(b[j], a, id) && Source(b[j], os, laddr) == Some(id) ==>
              ToPhysical(b[j], os, laddr, len) == INVALID
  {
    hide Inv, Run, RangesOk, ToPhysical, Source, GrantedFrom, Live, Enabled;
    RunInv(partitions, b, steps, i);
    RunInv(partitions, b, steps, j);
    InvShape(b[i]);
    InvShape(b[j]);
    RunRecords(partitions, b, steps, i, j);
    if GrantedFrom(b[i], a, id) {
      ChainStays(b[i], b[j], a, id);
    }
    if GrantedFrom(b[j], a, id) && Source(b[j], os, laddr) == Some(id) {
      ChainSilent(b[j], a, id, os, laddr, len);
    }
  }

  lemma ChainSilent(s: State, a: Id, id: Id, os: R.Os, laddr: nat, len: nat)
    requires Inv(s) && RangesOk(s) && a in s.tree.rescinded && GrantedFrom(s, a, id) && Source(s, os, laddr) == Some(id)
    ensures ToPhysical(s, os, laddr, len) == INVALID
  {
    hide R.Ok, Mapped, Solid, Disjoint, Counted, RangesOk, GrantedFrom, Sourced;
    if id in s.tree.enabled {
      LiveFromLive(s, a, id);
    }
  }
}
