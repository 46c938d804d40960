/** What a partition gets: placed memory translates throughout, and a grant hands over exactly the
    memory it names. */
module Delivery {
  import opened Lists
  import opened Ranges
  import opened LogicalMap
  import opened Memory
  import R = Resource

  /** set_lci found room for the resource: it has chunks in its owner's map. */
  ghost predicate Sited(s: State, id: Id)
    requires Keys(s)
  {
    id in s.tree.owner && s.tree.owner[id] in s.chunks && !Absent(s.chunks[s.tree.owner[id]], id)
  }

  /** A request of len bytes from x lies inside the resource. */
  ghost predicate Holds(l: Lci, x: nat, len: nat) {
    l.laddr <= x && x + len <= l.laddr + l.size
  }

  /** Every address of a placed resource leads to it. */
  lemma SitedSource(s: State, id: Id, x: nat)
    requires Inv(s) && Keys(s) && Sited(s, id) && Holds(s.lci[id], x, 1)
    ensures Source(s, s.tree.owner[id], x) == Some(id) && x < MAX_CHUNKS * CHUNK
  {
    hide R.Ok, Mapped, Enabled, Disjoint, RangesOk, Counted, Sourced, Absent, ChunksFor;
    var os, l := s.tree.owner[id], s.lci[id];
    assert SolidAt(s.chunks[os], l, id, id in s.tree.mapped);
    ChunksCover(l.size, l.laddr, x / CHUNK);
  }

  lemma SitedEnabled(s: State, id: Id)
    requires Inv(s) && Keys(s) && Sited(s, id) && Live(s, id)
    ensures id in s.tree.enabled
  {
    hide R.Ok, Solid, Disjoint, RangesOk, Counted, Sourced, Covers;
    var os := s.tree.owner[id];
    var c :| 0 <= c < |s.chunks[os]| && s.chunks[os][c] == Some(id);
  }

  /** lci_translate of a request inside an enabled resource. */
  lemma TranslateInside(l: Lci, x: nat, len: nat)
    requires Fits(l.laddr, l.size) && Fits(l.raddr, l.size) && 0 < len && Holds(l, x, len)
    ensures Translate(l, true, x, len) == x - l.laddr + l.raddr != INVALID
  {
    AddWraps(x, len);
    AddWraps(x + len, WORD - 1);
    AddWraps(x, 1);
    AddWraps(x + len - 1, 1);
    AddWraps(l.laddr, l.size);
    hide Add;
  }

  /** A request inside a live, placed resource goes to the same offset of its physical range. */
  lemma SitedTranslates(s: State, id: Id, x: nat, len: nat)
    requires Inv(s) && Keys(s) && Sited(s, id) && Live(s, id) && 0 < len && Holds(s.lci[id], x, len)
    ensures ToPhysical(s, s.tree.owner[id], x, len) == x - s.lci[id].laddr + s.lci[id].raddr != INVALID
  {
    hide Inv, Sited, Translate, Source;
    SitedSource(s, id, x);
    SitedEnabled(s, id);
    InvShape(s);
    RangeFits(s, id);
    TranslateInside(s.lci[id], x, len);
  }

  /** A translation succeeds exactly for the requests inside a live resource placed in the
      partition's map. */
  lemma TranslatesExactly(s: State, os: R.Os, x: nat, len: nat)
    requires Inv(s) && Keys(s) && x < MAX_CHUNKS * CHUNK && 0 < len && x + len < WORD
    ensures ToPhysical(s, os, x, len) != INVALID <==>
              exists id :: Live(s, id) && s.tree.owner[id] == os && Sited(s, id) && Holds(s.lci[id], x, len)
  {
    hide Inv, Sited, ToPhysical, Source;
    if ToPhysical(s, os, x, len) != INVALID {
      var id := TranslationInside(s, os, x, len);
      SourceSited(s, os, x, id);
    }
    if id :| Live(s, id) && s.tree.owner[id] == os && Sited(s, id) && Holds(s.lci[id], x, len) {
      SitedTranslates(s, id, x, len);
    }
  }

  lemma SourceSited(s: State, os: R.Os, x: nat, id: Id)
    requires Inv(s) && Keys(s) && Source(s, os, x) == Some(id) && id in s.tree.owner && s.tree.owner[id] == os
    ensures Sited(s, id)
  {
    hide Inv;
  }

  // ---------------------------------------------------------------------------------------------
  // Over every run

  /** In every state of every run, every request inside a live placed resource is translated to the
      same offset of its range. */
  lemma PlacedMemoryTranslates(partitions: set<R.Os>, b: seq<State>, steps: seq<Step>, i: nat, id: Id, x: nat, len: nat)
    requires Run(b, steps) && b[0] == Init(partitions) && i < |b| && Keys(b[i])
    requires Sited(b[i], id) && Live(b[i], id) && 0 < len && Holds(b[i].lci[id], x, len)
    ensures var l := b[i].lci[id];
            ToPhysical(b[i], b[i].tree.owner[id], x, len) == x - l.laddr + l.raddr != INVALID
  {
    hide Inv, Run, Sited, ToPhysical;
    RunInv(partitions, b, steps, i);
    SitedTranslates(b[i], id, x, len);
  }

  lemma NextAt(b: seq<State>, steps: seq<Step>, i: nat)
    requires Run(b, steps) && i + 1 < |b|
    ensures i < |steps| && Shape(b[i]) && CanStep(b[i], steps[i]) && b[i + 1] == Next(b[i], steps[i])
  {
  }

  /** What the owner of a resource finds behind offset k of it, wherever it is placed. */
  lemma OffsetTranslates(partitions: set<R.Os>, b: seq<State>, steps: seq<Step>, i: nat, j: nat, id: Id, k: nat,
                         len: nat)
    requires Run(b, steps) && b[0] == Init(partitions) && i <= j < |b| && Keys(b[i]) && Keys(b[j])
    requires id in b[i].lci && id in b[i].tree.owner && Sited(b[j], id) && Live(b[j], id)
    requires 0 < len && k + len <= b[i].lci[id].size
    ensures id in b[j].lci
    ensures ToPhysical(b[j], b[i].tree.owner[id], b[j].lci[id].laddr + k, len) == b[i].lci[id].raddr + k != INVALID
  {
    hide Inv, Run, Sited, ToPhysical;
    RunRecords(partitions, b, steps, i, j);
    PlacedMemoryTranslates(partitions, b, steps, j, id, b[j].lci[id].laddr + k, len);
  }

  /** The memory defined for a partition is the memory it gets. */
  lemma DefineDelivers(partitions: set<R.Os>, b: seq<State>, steps: seq<Step>, i: nat, j: nat, k: nat, len: nat)
    requires Run(b, steps) && b[0] == Init(partitions) && i < j < |b| && i < |steps| && steps[i].Define? && Keys(b[j])
    requires Sited(b[j], steps[i].id) && Live(b[j], steps[i].id) && 0 < len && k + len <= steps[i].size
    ensures steps[i].id in b[j].lci
    ensures ToPhysical(b[j], steps[i].os, b[j].lci[steps[i].id].laddr + k, len) == steps[i].base + k != INVALID
  {
    hide Inv, Run, Sited, ToPhysical, R.Insert, Fresh, NoConflict, RangeSubset;
    NextAt(b, steps, i);
    var d := steps[i];
    NewShape(b[i], d.id, None, d.os, d.base, d.size);
    RunInv(partitions, b, steps, i + 1);
    InvShape(b[i + 1]);
    OffsetTranslates(partitions, b, steps, i + 1, j, d.id, k, len);
  }

  /** A grant names memory of the source that translates. */
  lemma GrantNames(s: State, src: R.Os, laddr: nat, size: nat, dest: R.Os, id: Id, k: nat, len: nat)
    requires Inv(s) && Shape(s) && CanStep(s, Grant(src, laddr, size, dest, id)) && 0 < len && k + len <= size
    ensures var r := Next(s, Grant(src, laddr, size, dest, id));
            && id in r.lci && id in r.tree.owner && r.tree.owner[id] == dest && r.lci[id].size == size
            && ToPhysical(s, src, laddr + k, len) == r.lci[id].raddr + k != INVALID
  {
    hide Inv, R.Insert, NoConflict, RangeSubset, Sited, ToPhysical, RangesOk, Fresh;
    var p := Source(s, src, laddr).value;
    InvShape(s);
    SourceOwned(s, src, laddr, p);
    SourceSited(s, src, laddr, p);
    RangeFits(s, p);
    GrantFits(s, src, laddr, size);
    GrantInside(s.lci[p], laddr, size);
    NewShape(s, id, Some(p), dest, s.lci[p].raddr + (laddr - s.lci[p].laddr), size);
    SitedTranslates(s, p, laddr + k, len);
  }

  lemma SourceOwned(s: State, os: R.Os, x: nat, id: Id)
    requires Inv(s) && Source(s, os, x) == Some(id)
    ensures id in s.tree.owner && s.tree.owner[id] == os
  {
    hide R.Ok, Solid, Enabled, Disjoint, RangesOk, Counted, Sourced, Covers;
  }

  /** A grant hands over exactly the memory it names: as long as the grantee's resource lives, and
      wherever it was placed, offset k of it is what the granter found at laddr + k. */
  lemma GrantDelivers(partitions: set<R.Os>, b: seq<State>, steps: seq<Step>, i: nat, j: nat, k: nat, len: nat)
    requires Run(b, steps) && b[0] == Init(partitions) && i < j < |b| && i < |steps| && steps[i].Grant? && Keys(b[j])
    requires Sited(b[j], steps[i].id) && Live(b[j], steps[i].id) && 0 < len && k + len <= steps[i].size
    ensures var g := steps[i];
            && g.id in b[i + 1].lci && b[i + 1].lci[g.id].size == g.size && g.id in b[j].lci
            && ToPhysical(b[j], g.dest, b[j].lci[g.id].laddr + k, len)
               == ToPhysical(b[i], g.src, g.laddr + k, len) != INVALID
  {
    hide Inv, Run, Sited, ToPhysical, CanStep, Next;
    NextAt(b, steps, i);
    var g := steps[i];
    RunInv(partitions, b, steps, i);
    RunInv(partitions, b, steps, i + 1);
    InvShape(b[i + 1]);
    GrantNames(b[i], g.src, g.laddr, g.size, g.dest, g.id, k, len);
    OffsetTranslates(partitions, b, steps, i + 1, j, g.id, k, len);
  }

  /** Accepting a resource for which there is room places it there and makes all of it translate. */
  lemma AcceptDelivers(partitions: set<R.Os>, b: seq<State>, steps: seq<Step>, i: nat, x: nat, len: nat)
    requires Run(b, steps) && b[0] == Init(partitions) && i + 1 < |b| && i < |steps| && steps[i].Accept?
    requires steps[i].at.Some?
    requires steps[i].id in b[i + 1].lci && Holds(b[i + 1].lci[steps[i].id], x, len) && 0 < len
    ensures var r, id := b[i + 1], steps[i].id;
            && id in r.tree.owner && r.lci[id].laddr / CHUNK == steps[i].at.value
            && ToPhysical(r, r.tree.owner[id], x, len) == x - r.lci[id].laddr + r.lci[id].raddr != INVALID
  {
    hide Inv, Run, Sited, ToPhysical, CanStep;
    NextAt(b, steps, i);
    RunInv(partitions, b, steps, i + 1);
    InvShape(b[i + 1]);
    AcceptSites(b[i], steps[i].id, steps[i].at);
    PlacedMemoryTranslates(partitions, b, steps, i + 1, steps[i].id, x, len);
  }

  lemma AcceptSites(s: State, id: Id, at: Option<nat>)
    requires Shape(s) && CanStep(s, Accept(id, at)) && at.Some?
    ensures var r := DoAccept(s, id, at);
            && Shape(r) && Live(r, id) && r.lci[id].laddr / CHUNK == at.value
            && (s.lci[id].size > 0 ==> Sited(r, id))
  {
    AcceptShape(s, id, at);
    AcceptedAddress(s.lci[id], at.value);
    var r, os := DoAccept(s, id, at), s.tree.owner[id];
    if s.lci[id].size > 0 {
      ChunksExact(s.lci[id].size, s.lci[id].laddr);
      assert r.chunks[os][at.value] == Some(id);
    }
  }

  // ---------------------------------------------------------------------------------------------
  // A placed resource stays where it is

  ghost predicate SitedAt(s: State, id: Id, laddr: nat)
    requires Keys(s)
  {
    Sited(s, id) && id in s.lci && s.lci[id].laddr == laddr
  }

  lemma SitedMapped(s: State, id: Id)
    requires Inv(s) && Keys(s) && Sited(s, id)
    ensures id in s.tree.mapped
  {
    hide R.Ok, Solid, Disjoint, RangesOk, Counted, Sourced, Covers, Enabled;
    var os := s.tree.owner[id];
    var c :| 0 <= c < |s.chunks[os]| && s.chunks[os][c] == Some(id);
  }

  lemma AcceptLeavesSited(s: State, a: Id, at: Option<nat>, id: Id, laddr: nat)
    requires Shape(s) && CanStep(s, Accept(a, at)) && SitedAt(s, id, laddr) && a != id
    ensures Shape(DoAccept(s, a, at)) && SitedAt(DoAccept(s, a, at), id, laddr)
  {
    AcceptShape(s, a, at);
    hide ChunksFor;
    var os, r := s.tree.owner[id], DoAccept(s, a, at);
    var c :| 0 <= c < |s.chunks[os]| && s.chunks[os][c] == Some(id);
    assert r.chunks[os][c] == Some(id);
  }

  lemma CleanupLeavesSited(s: State, a: Id, id: Id, laddr: nat)
    requires Shape(s) && Mapped(s) && CanStep(s, Cleanup(a)) && SitedAt(s, id, laddr) && a != id
    ensures Shape(DoCleanup(s, a)) && SitedAt(DoCleanup(s, a), id, laddr)
  {
    CleanupMaps(s, a);
    hide Mapped, Without;
    var os, r := s.tree.owner[id], DoCleanup(s, a);
    var c :| 0 <= c < |s.chunks[os]| && s.chunks[os][c] == Some(id);
    assert r.chunks[os][c] == Some(id);
  }

  lemma NewLeavesSited(s: State, a: Id, parent: Option<Id>, os: R.Os, raddr: nat, size: nat, id: Id, laddr: nat)
    requires Shape(s) && CanAdd(s, a, parent, os) && SitedAt(s, id, laddr)
    ensures Shape(NewResource(s, a, parent, os, raddr, size))
    ensures SitedAt(NewResource(s, a, parent, os, raddr, size), id, laddr)
  {
    NewShape(s, a, parent, os, raddr, size);
    hide R.Insert;
  }

  lemma MarkLeavesSited(s: State, after: R.Table, gone: set<Id>, id: Id, laddr: nat)
    requires Shape(s) && Marks(s.tree, after, gone) && SitedAt(s, id, laddr)
    ensures var r := s.(tree := after); Keys(r) && SitedAt(r, id, laddr)
  {
  }

  lemma StepLeavesSited(s: State, e: Step, id: Id, laddr: nat)
    requires Inv(s) && Shape(s) && CanStep(s, e) && SitedAt(s, id, laddr) && Live(s, id)
    ensures Keys(Next(s, e)) && SitedAt(Next(s, e), id, laddr)
  {
    hide Inv, R.Ok, NoConflict, Severs, SitedAt, Sited, RangesOk, ChunksFor, Marks, R.Insert, R.Rescinds, R.Dead;
    InvShape(s);
    match e
    case Define(os, base, size, a) => NewLeavesSited(s, a, None, os, base, size, id, laddr);
    case Grant(src, la, size, dest, a) =>
      var p := Source(s, src, la).value;
      NewLeavesSited(s, a, Some(p), dest, s.lci[p].raddr + (la - s.lci[p].laddr), size, id, laddr);
    case Accept(a, at) =>
      IsSited(s, id, laddr);
      SitedMapped(s, id);
      AcceptLeavesSited(s, a, at, id, laddr);
    case Mark(start, q, after) =>
      RescindMarks(s, start, q, after);
      MarkLeavesSited(s, after, R.SetOf(q), id, laddr);
    case Die(os, todo, after) =>
      DeathMarks(s, os, todo, after);
      MarkLeavesSited(s, after, R.SetOf(todo), id, laddr);
    case Cleanup(a) => InvMapped(s); CleanupLeavesSited(s, a, id, laddr);
  }

  lemma IsSited(s: State, id: Id, laddr: nat)
    requires Keys(s) && SitedAt(s, id, laddr)
    ensures Sited(s, id)
  {
  }

  lemma InvMapped(s: State)
    requires Inv(s)
    ensures Shape(s) && Mapped(s)
  {
  }

  /** Once accepted and placed, a resource keeps its place and its logical address as long as it
      lives. */
  lemma {:induction false} PlaceKept(partitions: set<R.Os>, b: seq<State>, steps: seq<Step>, i: nat, j: nat, id: Id,
                                     laddr: nat)
    requires Run(b, steps) && b[0] == Init(partitions) && i <= j < |b|
    requires Keys(b[i]) && SitedAt(b[i], id, laddr) && id in b[j].tree.owner && id !in b[j].tree.rescinded
    ensures Keys(b[j]) && SitedAt(b[j], id, laddr)
    decreases j
  {
    hide Inv, Run, SitedAt, CanStep, Next, Keys;
    if i < j {
      NextAt(b, steps, j - 1);
      RunInv(partitions, b, steps, j - 1);
      StepRecords(b[j - 1], steps[j - 1]);
      RunRecords(partitions, b, steps, i, j - 1);
      SitedLives(b[i], id, laddr);
      PlaceKept(partitions, b, steps, i, j - 1, id, laddr);
      StepLeavesSited(b[j - 1], steps[j - 1], id, laddr);
    }
  }

  lemma SitedLives(s: State, id: Id, laddr: nat)
    requires Keys(s) && SitedAt(s, id, laddr)
    ensures id in s.tree.owner
  {
  }

  // ---------------------------------------------------------------------------------------------
  // When a grant goes through

  /** x lies in the range; the last address of all counts as lying in every range below it. */
  ghost predicate Meets(start: nat, size: nat, x: nat) {
    start <= x && (x < start + size || x == WORD - 1)
  }

  /** Neither the range nor a live resource of the partition begins inside the other. */
  ghost predicate Clear(s: State, os: R.Os, raddr: nat, size: nat)
    requires Keys(s)
  {
    forall a :: Live(s, a) && s.tree.owner[a] == os ==> ClearOf(s.lci[a], raddr, size)
  }

  ghost predicate ClearOf(l: Lci, raddr: nat, size: nat) {
    !Meets(l.raddr, l.size, raddr) && !Meets(raddr, size, l.raddr)
  }

  lemma ConflictBegins(l: Lci, raddr: nat, size: nat)
    requires Fits(l.raddr, l.size) && Fits(raddr, size)
    ensures RangesConflict(l.raddr, l.size, raddr, size) <==> !ClearOf(l, raddr, size)
  {
    AddWraps(l.raddr, l.size);
    AddWraps(raddr, size);
    AddWraps(raddr, 1);
    AddWraps(l.raddr, 1);
    hide Add;
  }

  lemma HeldLive(s: State, os: R.Os, a: Id)
    requires Inv(s) && Keys(s) && os in s.tree.held
    ensures Live(s, a) && s.tree.owner[a] == os <==> a in s.tree.held[os] && a in s.lci && a !in s.tree.rescinded
  {
    hide R.Wf, Mapped, Solid, Enabled, Disjoint, Counted, Sourced, R.Sorted, RangesOk;
    assert R.Holds(s.tree, os, s.tree.held[os]);
  }

  /** resource_conflict lets a range in exactly when it is clear. */
  lemma ConflictFree(s: State, os: R.Os, raddr: nat, size: nat)
    requires Inv(s) && Keys(s) && os in s.tree.held && Fits(raddr, size)
    ensures NoConflict(s, os, raddr, size) <==> Clear(s, os, raddr, size)
  {
    hide Inv, RangesOk, RangesConflict, ClearOf, Keys;
    InvShape(s);
    forall a
      ensures Live(s, a) && s.tree.owner[a] == os <==> a in s.tree.held[os] && a in s.lci && a !in s.tree.rescinded
      ensures a in s.lci ==>
                (RangesConflict(s.lci[a].raddr, s.lci[a].size, raddr, size) <==> !ClearOf(s.lci[a], raddr, size))
    {
      HeldLive(s, os, a);
      if a in s.lci {
        RangeFits(s, a);
        ConflictBegins(s.lci[a], raddr, size);
      }
    }
  }

  /** A grant goes through exactly when its size is no error code, it lies inside what the granter
      has there, a live resource, and the grantee has nothing in the way. */
  lemma GrantExactly(s: State, src: R.Os, laddr: nat, size: nat, dest: R.Os, id: Id)
    requires Inv(s) && Shape(s) && dest in s.tree.held && Fresh(s, id) && laddr < WORD && size < WORD
    ensures CanStep(s, Grant(src, laddr, size, dest, id)) <==>
              && size < 0x8000_0000_0000_0000 && Source(s, src, laddr).Some?
              && var p := Source(s, src, laddr).value;
                 && Live(s, p) && Holds(s.lci[p], laddr, size)
                 && Clear(s, dest, s.lci[p].raddr + (laddr - s.lci[p].laddr), size)
  {
    hide Inv, R.Ok, RangesOk, NoConflict, RangeSubset, Clear, Fresh;
    if Source(s, src, laddr).Some? && Positive(size) {
      var p := Source(s, src, laddr).value;
      SourceOwned(s, src, laddr, p);
      InvShape(s);
      RangeFits(s, p);
      GrantFits(s, src, laddr, size);
      var l := s.lci[p];
      SubsetHolds(l, laddr, size);
      if Holds(l, laddr, size) {
        ConflictFree(s, dest, l.raddr + (laddr - l.laddr), size);
      }
    }
  }

  /** Memory can be defined exactly when it does not wrap and nothing of the partition is in the
      way. */
  lemma DefineExactly(s: State, os: R.Os, base: nat, size: nat, id: Id)
    requires Inv(s) && Shape(s) && os in s.tree.held && Fresh(s, id) && size > 0
    ensures CanStep(s, Define(os, base, size, id)) <==> base + size < WORD && Clear(s, os, base, size)
  {
    hide Inv, NoConflict, Clear, Fresh;
    if Fits(base, size) {
      ConflictFree(s, os, base, size);
    }
  }

  /** Where a resource would lie if placed at chunk i. */
  ghost predicate RoomAt(s: State, os: R.Os, l: Lci, i: nat) {
    var start := i * CHUNK + l.laddr % CHUNK;
    && start + l.size <= MAX_CHUNKS * CHUNK
    && forall c: nat :: c * CHUNK < start + l.size && start < (c + 1) * CHUNK ==> Source(s, os, c * CHUNK).None?
  }

  /** An unmapped resource can be accepted at a chunk exactly when it is large enough to be mapped by
      chunks, or reaches the end of its chunk, and every chunk it would touch is there and unused. */
  lemma AcceptExactly(s: State, id: Id, i: nat)
    requires Inv(s) && Shape(s) && Live(s, id) && id !in s.tree.mapped && s.lci[id].size > 0
    ensures var l := s.lci[id];
            CanStep(s, Accept(id, Some(i))) <==>
              (2 * l.size > CHUNK || l.laddr % CHUNK + l.size >= CHUNK) && RoomAt(s, s.tree.owner[id], l, i)
  {
    hide Inv, ChunksFor;
    var l, os := s.lci[id], s.tree.owner[id];
    ChunksExact(l.size, l.laddr);
    var n := ChunksFor(l.size, l.laddr);
    assert i * CHUNK + l.laddr % CHUNK + l.size <= MAX_CHUNKS * CHUNK <==> i + n <= MAX_CHUNKS by { RoomFor(l, i, n); }
    forall c: nat
      ensures c * CHUNK < i * CHUNK + l.laddr % CHUNK + l.size && i * CHUNK + l.laddr % CHUNK < (c + 1) * CHUNK
              <==> i <= c < i + n
    {
      TouchedBy(l, i, n, c);
    }
    forall c: nat | i + n <= MAX_CHUNKS && i <= c < i + n
      ensures Source(s, os, c * CHUNK) == s.chunks[os][c]
    {
      assert c * CHUNK / CHUNK == c;
    }
  }

  lemma RoomFor(l: Lci, i: nat, n: nat)
    requires l.size > 0 && (n - 1) * CHUNK < l.laddr % CHUNK + l.size <= n * CHUNK
    ensures i * CHUNK + l.laddr % CHUNK + l.size <= MAX_CHUNKS * CHUNK <==> i + n <= MAX_CHUNKS
  {
  }

  lemma TouchedBy(l: Lci, i: nat, n: nat, c: nat)
    requires l.size > 0 && (n - 1) * CHUNK < l.laddr % CHUNK + l.size <= n * CHUNK
    ensures c * CHUNK < i * CHUNK + l.laddr % CHUNK + l.size && i * CHUNK + l.laddr % CHUNK < (c + 1) * CHUNK
            <==> i <= c < i + n
  {
  }

  lemma SubsetHolds(l: Lci, laddr: nat, size: nat)
    requires Fits(l.laddr, l.size) && Fits(laddr, size)
    ensures RangeSubset(l.laddr, l.size, laddr, size) <==> Holds(l, laddr, size)
  {
    SubsetExactly(l.laddr, l.size, laddr, size);
    hide RangeSubset;
  }

  // ---------------------------------------------------------------------------------------------
  // Nothing is left of what was destroyed

  ghost predicate NoTrace(s: State, id: Id)
    requires Keys(s)
  {
    && (forall os :: os in s.chunks ==> Absent(s.chunks[os], id))
    && (forall os :: os in s.tree.held ==> id !in s.tree.held[os])
  }

  /** Entries and list places of a resource are with its owner. */
  lemma OwnTraces(s: State, id: Id)
    requires Inv(s) && Keys(s) && id in s.tree.owner
    requires Absent(s.chunks[s.tree.owner[id]], id) && id !in s.tree.held[s.tree.owner[id]]
    ensures NoTrace(s, id)
  {
    hide R.Wf, Solid, Enabled, Disjoint, RangesOk, Counted, Sourced, Covers, R.Sorted;
    forall os | os in s.tree.held
      ensures id !in s.tree.held[os]
    {
      assert R.Holds(s.tree, os, s.tree.held[os]);
    }
  }

  lemma CleanupClears(s: State, id: Id)
    requires Inv(s) && Shape(s) && CanStep(s, Cleanup(id))
    ensures Keys(DoCleanup(s, id)) && NoTrace(DoCleanup(s, id), id)
  {
    hide Inv, Mapped, Absent, DoCleanup, NoTrace;
    InvMapped(s);
    CleanupMaps(s, id);
    CleanupKeeps(s, id);
    CleanupOwn(s, id);
    OwnTraces(DoCleanup(s, id), id);
  }

  lemma CleanupOwn(s: State, id: Id)
    requires Shape(s) && Mapped(s) && CanStep(s, Cleanup(id)) && Shape(DoCleanup(s, id))
    ensures var r := DoCleanup(s, id);
            && id in r.tree.owner && r.tree.owner[id] in r.chunks && r.tree.owner[id] in r.tree.held
            && Absent(r.chunks[r.tree.owner[id]], id) && id !in r.tree.held[r.tree.owner[id]]
  {
    UnmappedAbsent(s, id);
    hide Mapped;
  }

  lemma UnmappedAbsent(s: State, id: Id)
    requires Shape(s) && Mapped(s) && id in s.tree.owner
    ensures id !in s.tree.mapped ==> Absent(s.chunks[s.tree.owner[id]], id)
  {
  }

  lemma NewLeavesNone(s: State, a: Id, parent: Option<Id>, os: R.Os, raddr: nat, size: nat, id: Id)
    requires Shape(s) && CanAdd(s, a, parent, os) && NoTrace(s, id) && id in s.tree.owner
    ensures Shape(NewResource(s, a, parent, os, raddr, size)) && NoTrace(NewResource(s, a, parent, os, raddr, size), id)
  {
    NewShape(s, a, parent, os, raddr, size);
    hide Absent;
  }

  lemma AcceptLeavesNone(s: State, a: Id, at: Option<nat>, id: Id)
    requires Shape(s) && CanStep(s, Accept(a, at)) && NoTrace(s, id) && a != id
    ensures Shape(DoAccept(s, a, at)) && NoTrace(DoAccept(s, a, at), id)
  {
    AcceptShape(s, a, at);
    hide ChunksFor;
    var os, r := s.tree.owner[a], DoAccept(s, a, at);
    assert Absent(r.chunks[os], id);
    hide Absent;
  }

  lemma MarkLeavesNone(s: State, after: R.Table, id: Id)
    requires Shape(s) && after.held.Keys == s.tree.held.Keys && after.owner == s.tree.owner && NoTrace(s, id)
    requires forall os, x :: os in after.held && x in after.held[os] ==> x in s.tree.held[os]
    ensures var r := s.(tree := after); Keys(r) && NoTrace(r, id)
  {
    hide Absent;
  }

  lemma CleanupLeavesNone(s: State, a: Id, id: Id)
    requires Shape(s) && Mapped(s) && CanStep(s, Cleanup(a)) && NoTrace(s, id)
    ensures Keys(DoCleanup(s, a)) && NoTrace(DoCleanup(s, a), id)
  {
    CleanupMaps(s, a);
    hide Mapped;
    var os, r := s.tree.owner[a], DoCleanup(s, a);
    assert Absent(r.chunks[os], id);
    hide Absent;
  }

  /** Marking takes nobody onto a list. */
  lemma MarkedLists(s: State, e: Step)
    requires Inv(s) && Shape(s) && CanStep(s, e) && (e.Mark? || e.Die?)
    ensures e.after.held.Keys == s.tree.held.Keys && e.after.owner == s.tree.owner
    ensures forall os, x :: os in e.after.held && x in e.after.held[os] ==> x in s.tree.held[os]
  {
    hide Inv, R.Wf, R.Desc, R.Doomed, R.InOrder, R.StrippedLists, R.StrippedParents, R.ParentsFirst, NoConflict;
  }

  lemma StepLeavesNone(s: State, e: Step, id: Id)
    requires Inv(s) && Shape(s) && CanStep(s, e) && NoTrace(s, id) && id in s.tree.rescinded
    ensures Keys(Next(s, e)) && NoTrace(Next(s, e), id)
  {
    hide Inv, R.Ok, NoConflict, NoTrace, RangesOk, ChunksFor, R.Insert, R.Rescinds, R.Dead;
    InvMapped(s);
    match e
    case Define(os, base, size, a) => NewLeavesNone(s, a, None, os, base, size, id);
    case Grant(src, la, size, dest, a) =>
      var p := Source(s, src, la).value;
      NewLeavesNone(s, a, Some(p), dest, s.lci[p].raddr + (la - s.lci[p].laddr), size, id);
    case Accept(a, at) => AcceptLeavesNone(s, a, at, id);
    case Mark(_, _, after) => MarkedLists(s, e); MarkLeavesNone(s, after, id);
    case Die(_, _, after) => MarkedLists(s, e); MarkLeavesNone(s, after, id);
    case Cleanup(a) => CleanupLeavesNone(s, a, id);
  }

  lemma DestroyedStep(s: State, e: Step, id: Id)
    requires Inv(s) && Shape(s) && CanStep(s, e) && id in Next(s, e).destroyed
    ensures id in s.destroyed || e == Cleanup(id)
  {
    hide Inv, R.Ok, R.Insert, NoConflict;
  }

  /** In every state of every run a destroyed resource has no entry in any map and no place on any
      list: its chunks are there to be used again. */
  lemma {:induction false} DestroyedGone(partitions: set<R.Os>, b: seq<State>, steps: seq<Step>, i: nat, id: Id)
    requires Run(b, steps) && b[0] == Init(partitions) && i < |b| && id in b[i].destroyed
    ensures Keys(b[i]) && NoTrace(b[i], id)
    decreases i
  {
    hide Inv, Run, NoTrace, CanStep, Next, Keys;
    if i > 0 {
      NextAt(b, steps, i - 1);
      RunInv(partitions, b, steps, i - 1);
      DestroyedStep(b[i - 1], steps[i - 1], id);
      if id in b[i - 1].destroyed {
        DestroyedGone(partitions, b, steps, i - 1, id);
        DestroyedRescinded(b[i - 1], id);
        StepLeavesNone(b[i - 1], steps[i - 1], id);
      } else {
        NextCleanup(b[i - 1], id);
        CleanupClears(b[i - 1], id);
      }
    }
  }

  lemma DestroyedRescinded(s: State, id: Id)
    requires Inv(s) && id in s.destroyed
    ensures id in s.tree.rescinded
  {
  }

  lemma NextCleanup(s: State, id: Id)
    requires Shape(s) && CanStep(s, Cleanup(id))
    ensures Next(s, Cleanup(id)) == DoCleanup(s, id)
  {
  }
}
