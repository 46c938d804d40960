/** What the generation protocol guarantees over whole runs, and where it does not. */
module RcuRuns {
  import opened Rcu
  import opened RcuItems

  // ---------------------------------------------------------------------------------------------
  // Runs and their history

  /** A prefix of a run is a run. */
  lemma {:induction false} PrefixRuns(s: State, acts: seq<Action>, k: nat)
    requires Wf(s) && Runs(s, acts) && k <= |acts|
    ensures Runs(s, acts[..k])
    decreases |acts|
  {
    if k < |acts| {
      var front := acts[..|acts| - 1];
      PrefixRuns(s, front, k);
      assert front[..k] == acts[..k];
    } else {
      assert acts[..k] == acts;
    }
  }

  /** The state before action k of a run. */
  ghost function At(s: State, acts: seq<Action>, k: nat): (r: State)
    requires Wf(s) && Runs(s, acts) && k <= |acts|
    ensures Wf(r)
  {
    PrefixRuns(s, acts, k);
    After(s, acts[..k])
  }

  /** CPU d passes a quiescent point by taking a: it marks itself in rcu_check, or begins a pause. */
  ghost predicate Quiescent(s: State, a: Action, d: Cpu)
    requires Wf(s)
  {
    && Enabled(s, a) && a.c == d
    && (a.Rejoin? || a.PauseEnter? || (a.Swap? && s.genMask == s.local[d].seen))
  }

  ghost predicate DeferredAt(s: State, acts: seq<Action>, i: nat, n: Node)
    requires Wf(s) && Runs(s, acts)
  {
    && i < |acts|
    && acts[i].Defer? && acts[i].id == n.id
    && n.at == At(s, acts, i).now
    && n.active == s.cpus - At(s, acts, i).inactive
  }

  ghost predicate QuiescentAt(s: State, acts: seq<Action>, k: nat, d: Cpu)
    requires Wf(s) && Runs(s, acts)
  {
    k < |acts| && Quiescent(At(s, acts, k), acts[k], d)
  }

  /** The clock never runs backwards. */
  lemma {:induction false} ClockMonotone(s: State, acts: seq<Action>, i: nat, k: nat)
    requires Wf(s) && Runs(s, acts) && i <= k <= |acts|
    ensures At(s, acts, i).now <= At(s, acts, k).now
    decreases k
  {
    hide Step, Enabled, Wf;
    if i < k {
      ClockMonotone(s, acts, i, k - 1);
      PrefixRuns(s, acts, k);
      assert acts[..k][..k - 1] == acts[..k - 1];
      StepClock(At(s, acts, k - 1), acts[k - 1]);
    }
  }

  lemma StepClock(s: State, a: Action)
    requires Wf(s) && Enabled(s, a)
    ensures s.now <= Step(s, a).now
  {
  }

  lemma AtPrefix(s: State, acts: seq<Action>, k: nat)
    requires Wf(s) && Runs(s, acts) && acts != [] && k < |acts|
    ensures Runs(s, acts[..|acts| - 1]) && At(s, acts[..|acts| - 1], k) == At(s, acts, k)
    ensures k == |acts| - 1 ==> At(s, acts, k) == After(s, acts[..|acts| - 1])
  {
    hide Runs, After, Wf;
    PrefixRuns(s, acts, |acts| - 1);
    assert acts[..|acts| - 1][..k] == acts[..k];
  }

  /** What one step adds to the history. */
  lemma StepHistory(s: State, a: Action)
    requires Wf(s) && Enabled(s, a)
    ensures var r := Step(s, a);
            && (forall n :: n in r.deferred && n !in s.deferred ==>
                              a.Defer? && a.id == n.id && n.at == s.now && n.active == s.cpus - s.inactive)
            && (forall d :: d in s.cpus && r.lastQ[d] != s.lastQ[d] ==>
                              Quiescent(s, a, d) && r.lastQ[d] == s.now)
  {
  }

  lemma CarryDeferred(s: State, acts: seq<Action>, i: nat, n: Node)
    requires Wf(s) && Runs(s, acts) && acts != []
    requires var front := acts[..|acts| - 1]; Runs(s, front) && DeferredAt(s, front, i, n)
    ensures DeferredAt(s, acts, i, n)
  {
    hide Runs, After, At, Wf;
    AtPrefix(s, acts, i);
  }

  lemma CarryQuiescent(s: State, acts: seq<Action>, k: nat, d: Cpu)
    requires Wf(s) && Runs(s, acts) && acts != []
    requires var front := acts[..|acts| - 1]; Runs(s, front) && QuiescentAt(s, front, k, d)
    ensures QuiescentAt(s, acts, k, d)
    ensures At(s, acts, k) == At(s, acts[..|acts| - 1], k)
  {
    hide Runs, After, At, Wf, Quiescent;
    AtPrefix(s, acts, k);
  }

  ghost predicate DefersExplained(s: State, acts: seq<Action>)
    requires Wf(s) && Runs(s, acts)
  {
    forall n :: n in After(s, acts).deferred ==> exists i: nat :: DeferredAt(s, acts, i, n)
  }

  ghost predicate QuietExplained(s: State, acts: seq<Action>)
    requires Wf(s) && Runs(s, acts)
  {
    var r := After(s, acts);
    forall d :: d in r.cpus && r.lastQ[d] > 0 ==>
                  exists k: nat :: QuiescentAt(s, acts, k, d) && At(s, acts, k).now == r.lastQ[d]
  }

  /** The run accounts for every deferred item. */
  lemma {:induction false} HistoryDefers(s: State, acts: seq<Action>)
    requires Wf(s) && Runs(s, acts) && s.deferred == []
    ensures DefersExplained(s, acts)
    decreases |acts|
  {
    hide Step, Enabled, Quiescent;
    if acts != [] {
      var m := |acts| - 1;
      var q, r := After(s, acts[..m]), After(s, acts);
      HistoryDefers(s, acts[..m]);
      AtPrefix(s, acts, m);
      StepHistory(q, acts[m]);
      hide At, After, Runs;
      forall n | n in r.deferred
        ensures exists i: nat :: DeferredAt(s, acts, i, n)
      {
        if n in q.deferred {
          var i: nat :| DeferredAt(s, acts[..m], i, n);
          CarryDeferred(s, acts, i, n);
        } else {
          assert DeferredAt(s, acts, m, n);
        }
      }
    }
  }

  /** The run accounts for every recorded quiescent point. */
  lemma {:induction false} HistoryQuiet(s: State, acts: seq<Action>)
    requires Wf(s) && Runs(s, acts) && forall d :: d in s.cpus ==> s.lastQ[d] == 0
    ensures QuietExplained(s, acts)
    decreases |acts|
  {
    hide Step, Enabled, Quiescent;
    if acts != [] {
      var m := |acts| - 1;
      var q, r := After(s, acts[..m]), After(s, acts);
      HistoryQuiet(s, acts[..m]);
      AtPrefix(s, acts, m);
      StepHistory(q, acts[m]);
      hide At, After, Runs;
      forall d | d in r.cpus && r.lastQ[d] > 0
        ensures exists k: nat :: QuiescentAt(s, acts, k, d) && At(s, acts, k).now == r.lastQ[d]
      {
        if r.lastQ[d] == q.lastQ[d] {
          var k: nat :| QuiescentAt(s, acts[..m], k, d) && At(s, acts[..m], k).now == q.lastQ[d];
          CarryQuiescent(s, acts, k, d);
        } else {
          assert QuiescentAt(s, acts, m, d);
        }
      }
    }
  }

  // ---------------------------------------------------------------------------------------------
  // Exclusion, order and grace period of undisturbed runs

  ghost predicate Exclusive(s: State)
    requires Wf(s)
  {
    forall c, d :: Cleaning(s, c) && Cleaning(s, d) ==> c == d
  }

  /** Every collector about to run has waited for all CPUs active at its deferral. */
  ghost predicate Graceful(s: State)
    requires Wf(s)
  {
    forall c, d :: c in s.cpus && Enabled(s, Collect(c)) && d in s.cpus ==> Passed(s.lastQ, d, s.local[c].list[0])
  }

  lemma InvExcludesAndOrders(s: State)
    requires Inv(s)
    ensures Exclusive(s) && s.collected <= s.deferred
  {
  }

  lemma RunInv(cpus: set<Cpu>, acts: seq<Action>)
    requires Runs(Init(cpus, 2), acts) && !After(Init(cpus, 2), acts).disturbed
    ensures Inv(After(Init(cpus, 2), acts))
  {
    InitInv(cpus);
    hide Runs, After, Inv;
    RunKeeps(Init(cpus, 2), acts);
  }

  /** The slot behind the current generation is empty, always. In undisturbed runs at most one CPU is
      between claiming a generation and finishing its collectors, and the items collected are, in
      order, the first ones deferred. */
  lemma ExclusionAndOrder(cpus: set<Cpu>, acts: seq<Action>)
    requires Runs(Init(cpus, 2), acts)
    ensures var r := After(Init(cpus, 2), acts);
            && r.slots[(r.gen + 3) % NUM_GEN] == []
            && (!r.disturbed ==> Exclusive(r) && r.collected <= r.deferred)
  {
    hide Runs, After, Inv, Init, Exclusive;
    SlotBehindEmpty(cpus, acts);
    if !After(Init(cpus, 2), acts).disturbed {
      RunInv(cpus, acts);
      InvExcludesAndOrders(After(Init(cpus, 2), acts));
    }
  }

  /** The item about to be collected was deferred, and everyone has passed it. */
  lemma InvCollects(s: State, c: Cpu)
    requires Inv(s) && Enabled(s, Collect(c))
    ensures var n := s.local[c].list[0];
            n in s.deferred && forall d :: d in s.cpus ==> Passed(s.lastQ, d, n)
  {
    hide MaskInv, SlotInv, IdleInv, DueInv, NextInv;
    var n := s.local[c].list[0];
    assert s.deferred == s.collected + s.local[c].list + (Slot(s, 0) + Slot(s, 1) + Slot(s, 2));
    assert s.deferred[|s.collected|] == n;
    assert AllPassed(s.lastQ, s.cpus, n);
  }

  /** When a collector runs, every CPU that was active when the item was deferred has taken a
      quiescent action since, at some later point of the same run. */
  lemma GracePeriod(cpus: set<Cpu>, acts: seq<Action>, c: Cpu) returns (i: nat)
    requires Runs(Init(cpus, 2), acts) && !After(Init(cpus, 2), acts).disturbed
    requires Enabled(After(Init(cpus, 2), acts), Collect(c))
    ensures var s := Init(cpus, 2);
            && DeferredAt(s, acts, i, After(s, acts).local[c].list[0])
            && forall d :: d in cpus && d !in At(s, acts, i).inactive ==>
                             exists k: nat :: i < k && QuiescentAt(s, acts, k, d)
  {
    hide Runs, After, Inv, At, Quiescent;
    var s := Init(cpus, 2);
    var r := After(s, acts);
    var n := r.local[c].list[0];
    RunInv(cpus, acts);
    HistoryDefers(s, acts);
    HistoryQuiet(s, acts);
    InvCollects(r, c);
    i :| DeferredAt(s, acts, i, n);
    forall d | d in cpus && d !in At(s, acts, i).inactive
      ensures exists k: nat :: i < k && QuiescentAt(s, acts, k, d)
    {
      assert Passed(r.lastQ, d, n);
      var k: nat :| QuiescentAt(s, acts, k, d) && At(s, acts, k).now == r.lastQ[d];
      if k <= i {
        ClockMonotone(s, acts, k, i);
        assert false;
      }
    }
  }
}
