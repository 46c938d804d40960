/** Where the guarantees of the generation protocol stop: rcu_pause on two or more CPUs, and a
    look-ahead of one generation instead of two. */
module RcuLimits {
  import opened Rcu
  import opened RcuRuns
  import opened RcuItems
  import opened RcuTwo
  import opened RcuScenes

  // ---------------------------------------------------------------------------------------------
  // Without rcu_pause no run is disturbed

  ghost predicate PauseFree(acts: seq<Action>) {
    forall a :: a in acts ==> !a.PauseStart? && !a.PauseEnter? && !a.PauseLeave?
  }

  /** Nobody has paused, so nobody rejoins and the mask is never complete. */
  ghost predicate Unpaused(s: State)
    requires Wf(s)
  {
    && s.inactive == {}
    && (s.cpus != {} ==> s.genMask != s.cpus)
    && (forall c :: c in s.cpus ==> UnpausedLocal(s.mode[c], s.local[c]))
  }

  ghost predicate UnpausedLocal(m: Mode, l: Local) {
    m.Running? && !l.Rejoining? && !l.Rechecking? && (l.Swapping? && l.claim ==> l.next == {})
  }

  /** A swap by someone else leaves an incomplete mask that only d can complete as it was. */
  lemma UndisturbedSwap(s: State, c: Cpu)
    requires Wf(s) && MaskInv(s) && Unpaused(s) && Enabled(s, Swap(c)) && !s.disturbed
    ensures !DoSwap(s, c).disturbed
  {
    var l := s.local[c];
    assert LocalInv(s, c, l);
    if s.genMask == l.seen {
      forall d | d != c && Watching(s, d)
        ensures l.next == s.genMask
      {
        assert LocalInv(s, d, s.local[d]);
        assert s.genMask != s.cpus;
        assert s.genMask == s.cpus - {d};
      }
    }
  }

  lemma UnpausedSwap(s: State, c: Cpu)
    requires Wf(s) && MaskInv(s) && Unpaused(s) && Enabled(s, Swap(c))
    ensures Unpaused(DoSwap(s, c))
  {
    hide Disturbs, MaskInv;
    var l, r := s.local[c], DoSwap(s, c);
    assert LocalInv(s, c, l) by { SwapLocal(s, c); }
    assert UnpausedLocal(s.mode[c], l);
    assert r.mode == s.mode && r.inactive == s.inactive;
    forall d | d in s.cpus
      ensures UnpausedLocal(r.mode[d], r.local[d])
    {
      assert UnpausedLocal(s.mode[d], s.local[d]);
    }
  }

  lemma SwapLocal(s: State, c: Cpu)
    requires Wf(s) && MaskInv(s) && c in s.cpus
    ensures LocalInv(s, c, s.local[c])
  {
  }

  lemma UnpausedStep(s: State, a: Action)
    requires Wf(s) && MaskInv(s) && Unpaused(s) && Enabled(s, a) && !s.disturbed
    requires !a.PauseStart? && !a.PauseEnter? && !a.PauseLeave?
    ensures Unpaused(Step(s, a)) && !Step(s, a).disturbed
  {
    assert LocalInv(s, a.c, s.local[a.c]);
    hide MaskInv, Disturbs;
    assert UnpausedLocal(s.mode[a.c], s.local[a.c]);
    if a.Swap? {
      UnpausedSwap(s, a.c);
      UndisturbedSwap(s, a.c);
    }
  }

  lemma {:induction false} PauseFreeKeeps(s: State, acts: seq<Action>)
    requires Inv(s) && Unpaused(s) && !s.disturbed && Runs(s, acts) && PauseFree(acts)
    ensures Unpaused(After(s, acts)) && !After(s, acts).disturbed
    decreases |acts|
  {
    hide Step, Enabled, Unpaused;
    if acts != [] {
      var front := acts[..|acts| - 1];
      assert PauseFree(front);
      PauseFreeKeeps(s, front);
      RunKeeps(s, front);
      UnpausedStep(After(s, front), acts[|acts| - 1]);
    }
  }

  /** A run in which no CPU pauses is never disturbed, at the grain of single reads and swaps. */
  lemma PauseFreeUndisturbed(cpus: set<Cpu>, acts: seq<Action>)
    requires Runs(Init(cpus, 2), acts) && PauseFree(acts)
    ensures !After(Init(cpus, 2), acts).disturbed
  {
    InitInv(cpus);
    hide Runs, After, Inv;
    PauseFreeKeeps(Init(cpus, 2), acts);
  }

  // ---------------------------------------------------------------------------------------------
  // With the marking pass in one piece, pauses do no harm

  /** While a CPU is between reading gen_mask and its swap, only that CPU acts. */
  ghost predicate WholePasses(s: State, acts: seq<Action>)
    requires Wf(s) && Runs(s, acts)
    decreases |acts|
  {
    acts == [] ||
    (var front := acts[..|acts| - 1];
     WholePasses(s, front) && forall d :: MidPass(After(s, front), d) ==> acts[|acts| - 1].c == d)
  }

  ghost predicate MidPass(s: State, d: Cpu)
    requires Wf(s)
  {
    d in s.cpus && (s.local[d].Inspecting? || s.local[d].Swapping?)
  }

  lemma WholeStep(s: State, a: Action)
    requires Wf(s) && Enabled(s, a) && !s.disturbed && forall d :: MidPass(s, d) ==> a.c == d
    ensures !Step(s, a).disturbed
  {
    forall d | d != a.c
      ensures !Watching(s, d)
    {
      assert !MidPass(s, d);
    }
  }

  /** Runs whose passes are in one piece are undisturbed, however many CPUs pause; so exclusion,
      order and the grace period hold of them. */
  lemma {:induction false} WholePassesUndisturbed(cpus: set<Cpu>, acts: seq<Action>)
    requires Runs(Init(cpus, 2), acts) && WholePasses(Init(cpus, 2), acts)
    ensures !After(Init(cpus, 2), acts).disturbed
    ensures Exclusive(After(Init(cpus, 2), acts)) && Graceful(After(Init(cpus, 2), acts))
    ensures var r := After(Init(cpus, 2), acts); r.collected <= r.deferred && r.slots[(r.gen + 3) % NUM_GEN] == []
    decreases |acts|
  {
    assert !After(Init(cpus, 2), acts).disturbed by {
      if acts != [] {
        WholePassesUndisturbed(cpus, acts[..|acts| - 1]);
        WholeStep(After(Init(cpus, 2), acts[..|acts| - 1]), acts[|acts| - 1]);
      }
    }
    UndisturbedGraceful(cpus, acts);
    ExclusionAndOrder(cpus, acts);
  }

  // ---------------------------------------------------------------------------------------------
  // With rcu_pause on two CPUs, exclusion fails

  /** On any two CPUs, one of them pausing, both can be cleaning at once. */
  lemma TwoCleaners(cpus: set<Cpu>, x: Cpu, a: Cpu) returns (acts: seq<Action>)
    requires x in cpus && a in cpus && x != a
    ensures Runs(Init(cpus, 2), acts)
    ensures Cleaning(After(Init(cpus, 2), acts), x) && Cleaning(After(Init(cpus, 2), acts), a)
  {
    hide Runs, After, Does, Does2, Enabled, Step, Init, Duo, Scene;
    var s := Init(cpus, 2);
    var t;
    acts := ReachFullMask(cpus, x, a);
    acts, t := BothClaim(cpus, acts, x, a, 1, 1, NONE);
    DuoFacts(t, x, a, {a}, 1, Locking({}, 1), Locking({a}, 0), NONE);
  }

  /** Exclusion holds over all runs exactly when there is at most one CPU or nobody pauses. */
  lemma ExclusionExactly(cpus: set<Cpu>, pausing: bool)
    ensures (forall acts :: Runs(Init(cpus, 2), acts) && (PauseFree(acts) || pausing) ==>
                              Exclusive(After(Init(cpus, 2), acts)))
            <==> (|cpus| <= 1 || !pausing)
  {
    hide Runs, After, PauseFree;
    if |cpus| <= 1 {
      OneCpu(cpus);
    } else if pausing {
      var x :| x in cpus;
      assert |cpus - {x}| == |cpus| - 1;
      var a :| a in cpus - {x};
      var acts := TwoCleaners(cpus, x, a);
      assert !Exclusive(After(Init(cpus, 2), acts));
    } else {
      forall acts | Runs(Init(cpus, 2), acts) && PauseFree(acts)
        ensures Exclusive(After(Init(cpus, 2), acts))
      {
        PauseFreeUndisturbed(cpus, acts);
        ExclusionAndOrder(cpus, acts);
      }
    }
  }

  lemma OneCpu(cpus: set<Cpu>)
    requires |cpus| <= 1
    ensures forall c, d :: c in cpus && d in cpus ==> c == d
  {
    forall c, d | c in cpus && d in cpus
      ensures c == d
    {
      SubsetSize({c, d}, cpus);
      assert c != d ==> |{c, d}| == 2;
    }
  }

  lemma {:induction false} SubsetSize<T>(a: set<T>, b: set<T>)
    requires a <= b
    ensures |a| <= |b|
    decreases a
  {
    if a != {} {
      var e :| e in a;
      SubsetSize(a - {e}, b - {e});
    }
  }

  /** x and a are at lx and la, everyone else outside and running. */
  ghost predicate Duo(s: State, x: Cpu, a: Cpu, mask: set<Cpu>, gen: nat, lx: Local, la: Local, slots: seq<seq<Node>>) {
    && Stage(s, x, mask, gen, slots) && a in s.cpus && x != a
    && s.local[x] == lx && s.local[a] == la && s.mode[a].Running?
    && (forall c :: c in s.cpus && c != x && c != a ==> s.local[c].Outside? && s.mode[c].Running?)
  }

  lemma DuoFacts(s: State, x: Cpu, a: Cpu, mask: set<Cpu>, gen: nat, lx: Local, la: Local, slots: seq<seq<Node>>)
    requires Duo(s, x, a, mask, gen, lx, la, slots)
    ensures Wf(s) && a in s.cpus && x in s.cpus && x != a && s.local[a] == la && s.local[x] == lx
    ensures forall c :: c in s.cpus && c != x && c != a ==> s.local[c].Outside?
    ensures forall c :: c in s.cpus ==> s.lastQ[c] < s.now
  {
  }

  /** a reads the complete mask too ... */
  lemma DuoReads(s: State, x: Cpu, a: Cpu, gen: nat, repeat: nat, slots: seq<seq<Node>>) returns (t: State)
    requires Scene(s, x, s.cpus, gen, Inspecting(s.cpus, repeat), slots) && a in s.cpus && x != a
    ensures Does(s, Enter(a), Load(a), Inspect(a), t) && t.cpus == s.cpus
    ensures Duo(t, x, a, s.cpus, gen, Inspecting(s.cpus, repeat), Swapping(s.cpus, {x}, true, 0), slots)
  {
    hide Does, Enabled, Step;
    t := ReadFull(s, x, a, gen, slots);
  }

  /** ... x swaps first ... */
  lemma DuoWins(s: State, x: Cpu, a: Cpu, gen: nat, repeat: nat, slots: seq<seq<Node>>) returns (t: State)
    requires Duo(s, x, a, s.cpus, gen, Inspecting(s.cpus, repeat), Swapping(s.cpus, {x}, true, 0), slots)
    ensures Does2(s, Inspect(x), Swap(x), t) && t.cpus == s.cpus
    ensures Duo(t, x, a, {}, gen, Locking({}, repeat), Swapping(s.cpus, {x}, true, 0), slots)
  {
    hide Does2, Enabled, Step;
    t := PausedSwaps(s, x, gen, repeat, slots);
  }

  /** ... and a loses, goes round and claims as well. */
  lemma DuoLoses(s: State, x: Cpu, a: Cpu, gen: nat, lx: Local, slots: seq<seq<Node>>) returns (t: State)
    requires Duo(s, x, a, {}, gen, lx, Swapping(s.cpus, {x}, true, 0), slots)
    ensures Does(s, Swap(a), Load(a), Swap(a), t) && t.cpus == s.cpus
    ensures Duo(t, x, a, {a}, gen, lx, Locking({a}, 0), slots)
  {
    hide Does, Enabled, Step;
    t := LoserClaims(s, x, a, x, {}, gen, slots);
    assert {} + {a} == {a};
  }

  /** Both x and a have claimed a generation, with no list taken yet. */
  lemma BothClaim(cpus: set<Cpu>, acts: seq<Action>, x: Cpu, a: Cpu, gen: nat, repeat: nat, slots: seq<seq<Node>>)
    returns (longer: seq<Action>, t: State)
    requires x in cpus && a in cpus && x != a && Runs(Init(cpus, 2), acts)
    requires Scene(After(Init(cpus, 2), acts), x, cpus, gen, Inspecting(cpus, repeat), slots)
    ensures Runs(Init(cpus, 2), longer) && t == After(Init(cpus, 2), longer)
    ensures Duo(t, x, a, {a}, gen, Locking({}, repeat), Locking({a}, 0), slots)
  {
    hide Runs, After, Does, Does2, Enabled, Step, Init, Duo, Scene, Wf;
    var s := Init(cpus, 2);
    t := DuoReads(After(s, acts), x, a, gen, repeat, slots);
    longer := Extend3(s, acts, Enter(a), Load(a), Inspect(a), t);
    t := DuoWins(t, x, a, gen, repeat, slots);
    longer := Extend2(s, longer, Inspect(x), Swap(x), t);
    t := DuoLoses(t, x, a, gen, Locking({}, repeat), slots);
    longer := Extend3(s, longer, Swap(a), Load(a), Swap(a), t);
  }

  // ---------------------------------------------------------------------------------------------
  // With rcu_pause on three CPUs, the grace period fails

  /** An item alone in its slot, and a CPU active then that has not been quiescent since. */
  ghost predicate Waits(s: State, z: Cpu, list: seq<Node>)
    requires Wf(s)
  {
    z in s.cpus && |list| == 1 && z in list[0].active && s.lastQ[z] < list[0].at
  }

  /** A list in the last slot, the others empty. */
  ghost function Last(list: seq<Node>): seq<seq<Node>> {
    [[], [], [], list]
  }

  ghost predicate Three(cpus: set<Cpu>, x: Cpu, a: Cpu, d: Cpu) {
    x in cpus && a in cpus && d in cpus && x != a && x != d && a != d
  }

  /** d, outside rcu_check, defers an item; z, in no pause, owes it a quiescent point. */
  lemma DeferLast(s: State, x: Cpu, d: Cpu, z: Cpu, mask: set<Cpu>) returns (t: State, list: seq<Node>)
    requires Stage(s, x, mask, 1, NONE) && z in s.cpus && z != x && d in s.cpus && s.local[d].Outside?
    ensures Enabled(s, Defer(d, 0)) && t == Step(s, Defer(d, 0)) && Stage(t, x, mask, 1, Last(list))
    ensures Waits(t, z, list)
    ensures t.cpus == s.cpus && t.local == s.local && t.mode == s.mode
  {
    hide Enabled, Step;
    var n;
    t, n := DeferStage(s, x, d, mask, 1, NONE);
    list := [n];
    PutLast(n);
  }

  lemma PutLast(n: Node)
    ensures Put(NONE, 3, n) == Last([n])
  {
    assert NONE[3] + [n] == [n];
  }

  lemma DuoDefers(s: State, x: Cpu, a: Cpu, d: Cpu, lx: Local, la: Local) returns (t: State, list: seq<Node>)
    requires Duo(s, x, a, {a}, 1, lx, la, NONE) && d in s.cpus && d != x && d != a
    ensures Enabled(s, Defer(d, 0)) && t == Step(s, Defer(d, 0)) && t.cpus == s.cpus
    ensures Duo(t, x, a, {a}, 1, lx, la, Last(list)) && Waits(t, a, list)
  {
    hide Enabled, Step;
    t, list := DeferLast(s, x, d, a, {a});
  }

  /** a takes a list and leaves ... */
  lemma FirstTakes(s: State, x: Cpu, a: Cpu, list: seq<Node>) returns (t: State)
    requires Duo(s, x, a, {a}, 1, Locking({}, 1), Locking({a}, 0), Last(list)) && Waits(s, a, list)
    ensures Does2(s, Take(a), Repeat(a), t) && t.cpus == s.cpus
    ensures Duo(t, x, a, {a}, 2, Locking({}, 1), Outside, Last(list)) && Waits(t, a, list)
  {
    hide Disturbs;
    var r := Step(s, Take(a));
    assert r.slots == s.slots && r.local[a] == Draining({a}, [], 0);
    assert x !in {a} + {a};
    t := Step(r, Repeat(a));
    assert t.local[a].Outside?;
  }

  /** ... then x takes one. */
  lemma SecondTakes(s: State, x: Cpu, a: Cpu, list: seq<Node>) returns (t: State)
    requires Duo(s, x, a, {a}, 2, Locking({}, 1), Outside, Last(list)) && Waits(s, a, list)
    ensures Enabled(s, Take(x)) && t == Step(s, Take(x)) && t.cpus == s.cpus
    ensures Scene(t, x, {a}, 3, Draining({}, [], 1), Last(list)) && Waits(t, a, list)
  {
    hide Disturbs;
    t := Step(s, Take(x));
    assert t.slots == s.slots;
  }

  /** x finds the mask complete again, goes round and claims a third generation ... */
  lemma ClaimsAgain(s: State, x: Cpu, a: Cpu, list: seq<Node>) returns (t: State)
    requires Scene(s, x, s.cpus - {x}, 3, Draining({}, [], 1), Last(list)) && Waits(s, a, list)
    ensures Does(s, Repeat(x), Load(x), Inspect(x), t) && t.cpus == s.cpus
    ensures Scene(t, x, s.cpus - {x}, 3, Swapping(s.cpus - {x}, {}, true, 2), Last(list)) && Waits(t, a, list)
  {
    hide Disturbs;
    var r := RepeatsAndLoads(s, x, list);
    t := Step(r, Inspect(x));
  }

  lemma RepeatsAndLoads(s: State, x: Cpu, list: seq<Node>) returns (r: State)
    requires Scene(s, x, s.cpus - {x}, 3, Draining({}, [], 1), Last(list))
    ensures Enabled(s, Repeat(x)) && Enabled(Step(s, Repeat(x)), Load(x)) && r == Step(Step(s, Repeat(x)), Load(x))
    ensures r == s.(local := s.local[x := Inspecting(s.cpus - {x}, 2)]) && s.inactive - {x} == {}
  {
    hide Disturbs;
    assert s.cpus - {x} + {x} == s.cpus;
    r := Step(Step(s, Repeat(x)), Load(x));
  }

  /** ... and takes the item that still waits for a. */
  lemma TakesAgain(s: State, x: Cpu, a: Cpu, list: seq<Node>) returns (t: State)
    requires Scene(s, x, {}, 3, Locking({}, 2), Last(list)) && Waits(s, a, list)
    ensures Enabled(s, Take(x)) && t == Step(s, Take(x)) && Enabled(t, Collect(x))
    ensures t.local[x].list == list && Waits(t, a, list)
  {
    hide Disturbs;
    t := Step(s, Take(x));
  }

  lemma ClaimWaits(s: State, t: State, x: Cpu, a: Cpu, list: seq<Node>)
    requires Wf(s) && Enabled(s, Swap(x)) && t == Step(s, Swap(x)) && Waits(s, a, list) && a != x
    ensures Waits(t, a, list)
  {
    hide Disturbs;
  }

  /** Everyone but x and a marks itself, and a is not quiescent by that. */
  lemma OthersMark(cpus: set<Cpu>, acts: seq<Action>, x: Cpu, a: Cpu, list: seq<Node>) returns (longer: seq<Action>)
    requires Runs(Init(cpus, 2), acts) && a in cpus && a != x && x in cpus
    requires var r := After(Init(cpus, 2), acts);
             Scene(r, x, {a}, 3, Draining({}, [], 1), Last(list)) && Waits(r, a, list)
    ensures Runs(Init(cpus, 2), longer)
    ensures var r := After(Init(cpus, 2), longer);
            Scene(r, x, cpus - {x}, 3, Draining({}, [], 1), Last(list)) && Waits(r, a, list)
  {
    hide Runs, After, Init, Scene;
    var s := Init(cpus, 2);
    longer := MarkAll(s, acts, cpus - {x} - {a}, x, {a}, 3, Draining({}, [], 1), Last(list));
    assert {a} + (cpus - {x} - {a}) == cpus - {x};
  }

  /** With a pause, three CPUs are enough: x and a have both claimed when d defers an item and marks
      itself, and x goes round to take it before a is quiescent again. */
  lemma GraceBrokenByThree(cpus: set<Cpu>, x: Cpu, a: Cpu, d: Cpu) returns (acts: seq<Action>)
    requires Three(cpus, x, a, d)
    ensures Runs(Init(cpus, 2), acts)
    ensures var r := After(Init(cpus, 2), acts);
            Enabled(r, Collect(x)) && a in r.cpus && !Passed(r.lastQ, a, r.local[x].list[0])
  {
    hide Runs, After, Does, Does2, Enabled, Step, Init, Duo, Scene, Wf;
    var s := Init(cpus, 2);
    var t, list;
    acts := ReachFullMask(cpus, x, a);
    acts, t := BothClaim(cpus, acts, x, a, 1, 1, NONE);
    t, list := DuoDefers(t, x, a, d, Locking({}, 1), Locking({a}, 0));
    acts := Extend(s, acts, Defer(d, 0));
    t := FirstTakes(t, x, a, list);
    acts := Extend2(s, acts, Take(a), Repeat(a), t);
    t := SecondTakes(t, x, a, list);
    acts := Extend(s, acts, Take(x));
    acts := OthersMark(cpus, acts, x, a, list);
    acts := TakenEarly(cpus, acts, x, a, list);
  }

  lemma TakenEarly(cpus: set<Cpu>, acts: seq<Action>, x: Cpu, a: Cpu, list: seq<Node>) returns (longer: seq<Action>)
    requires Runs(Init(cpus, 2), acts) && a in cpus && a != x
    requires var r := After(Init(cpus, 2), acts);
             Scene(r, x, cpus - {x}, 3, Draining({}, [], 1), Last(list)) && Waits(r, a, list)
    ensures Runs(Init(cpus, 2), longer)
    ensures var r := After(Init(cpus, 2), longer);
            Enabled(r, Collect(x)) && a in r.cpus && !Passed(r.lastQ, a, r.local[x].list[0])
  {
    hide Runs, After, Does, Enabled, Step, Init, Scene;
    var s := Init(cpus, 2);
    var t := ClaimsAgain(After(s, acts), x, a, list);
    longer := Extend3(s, acts, Repeat(x), Load(x), Inspect(x), t);
    var u := ClaimScene2(t, x, cpus - {x}, 3, 2, Last(list));
    longer := Extend(s, longer, Swap(x));
    ClaimWaits(t, u, x, a, list);
    t := TakesAgain(u, x, a, list);
    longer := Extend(s, longer, Take(x));
  }

  /** The grace period holds over all runs exactly when there are at most two CPUs or nobody
      pauses. */
  lemma GraceExactly(cpus: set<Cpu>, pausing: bool)
    ensures (forall acts :: Runs(Init(cpus, 2), acts) && (PauseFree(acts) || pausing) ==>
                              Graceful(After(Init(cpus, 2), acts)))
            <==> (|cpus| <= 2 || !pausing)
  {
    hide Runs, After, PauseFree;
    if |cpus| > 2 && pausing {
      var x :| x in cpus;
      assert |cpus - {x}| == |cpus| - 1;
      var a :| a in cpus - {x};
      assert |cpus - {x} - {a}| == |cpus| - 2;
      var d :| d in cpus - {x} - {a};
      var acts := GraceBrokenByThree(cpus, x, a, d);
      assert !Graceful(After(Init(cpus, 2), acts));
    } else {
      forall acts | Runs(Init(cpus, 2), acts) && (PauseFree(acts) || pausing)
        ensures Graceful(After(Init(cpus, 2), acts))
      {
        QuietRun(cpus, acts);
      }
    }
  }

  lemma QuietRun(cpus: set<Cpu>, acts: seq<Action>)
    requires Runs(Init(cpus, 2), acts) && (|cpus| <= 2 || PauseFree(acts))
    ensures Graceful(After(Init(cpus, 2), acts))
  {
    hide Runs, After, PauseFree, Init, Graceful;
    if |cpus| == 2 {
      var x :| x in cpus;
      assert |cpus - {x}| == 1;
      var y :| y in cpus - {x};
      assert |cpus - {x} - {y}| == 0;
      assert cpus == {x, y};
      TwoGraceful(x, y, acts);
    } else {
      if |cpus| <= 1 {
        AloneUndisturbed(cpus, acts);
      } else {
        PauseFreeUndisturbed(cpus, acts);
      }
      UndisturbedGraceful(cpus, acts);
    }
  }

  lemma UndisturbedGraceful(cpus: set<Cpu>, acts: seq<Action>)
    requires Runs(Init(cpus, 2), acts) && !After(Init(cpus, 2), acts).disturbed
    ensures Graceful(After(Init(cpus, 2), acts))
  {
    hide Runs, After, Inv, Init;
    RunInv(cpus, acts);
    var r := After(Init(cpus, 2), acts);
    forall c, d | c in r.cpus && Enabled(r, Collect(c)) && d in r.cpus
      ensures Passed(r.lastQ, d, r.local[c].list[0])
    {
      InvCollects(r, c);
    }
  }

  lemma AloneStep(s: State, a: Action)
    requires Wf(s) && Enabled(s, a) && !s.disturbed && forall c, d :: c in s.cpus && d in s.cpus ==> c == d
    ensures !Step(s, a).disturbed
  {
  }

  /** A CPU alone is never disturbed. */
  lemma {:induction false} AloneUndisturbed(cpus: set<Cpu>, acts: seq<Action>)
    requires |cpus| <= 1 && Runs(Init(cpus, 2), acts)
    ensures !After(Init(cpus, 2), acts).disturbed
    decreases |acts|
  {
    hide Step, Enabled;
    OneCpu(cpus);
    if acts != [] {
      AloneUndisturbed(cpus, acts[..|acts| - 1]);
      AloneStep(After(Init(cpus, 2), acts[..|acts| - 1]), acts[|acts| - 1]);
    }
  }

  // ---------------------------------------------------------------------------------------------
  // With rcu_pause on four CPUs, even for a CPU that never enters rcu_check

  ghost predicate Four(cpus: set<Cpu>, x: Cpu, a: Cpu, b: Cpu, z: Cpu) {
    Three(cpus, x, a, b) && z in cpus && z != x && z != a && z != b
  }

  /** a claims and takes a list though it lost the swap; others stand as they did. */
  lemma StaleTake(s: State, x: Cpu, a: Cpu, mask: set<Cpu>, gen: nat, slots: seq<seq<Node>>)
    returns (r: State, t: State)
    requires Stage(s, x, mask, gen, slots) && a in s.cpus && a != x && x !in mask
    requires s.local[a] == Swapping(s.cpus, {x}, true, 0)
    ensures Does(s, Swap(a), Load(a), Swap(a), r) && Enabled(r, Take(a)) && t == Step(r, Take(a))
    ensures Stage(t, x, mask + {a}, gen + 1, slots[gen % NUM_GEN := []]) && OthersSame(s, t, a)
    ensures t.local[a] == Draining(mask + {a}, slots[gen % NUM_GEN], 0)
  {
    hide Does, Enabled, Step;
    r := LoserClaims(s, x, a, x, mask, gen, slots);
    t := TakeStage(r, x, a, mask + {a}, gen, slots);
  }

  /** With a pause and four CPUs a collector can run while a CPU that was outside rcu_check all
      along, and active at the deferral, has not been quiescent since. */
  lemma GraceBroken(cpus: set<Cpu>, x: Cpu, a: Cpu, b: Cpu, z: Cpu) returns (acts: seq<Action>)
    requires Four(cpus, x, a, b, z)
    ensures Runs(Init(cpus, 2), acts)
    ensures var r := After(Init(cpus, 2), acts);
            && z in r.cpus && r.local[z].Outside? && Enabled(r, Collect(b))
            && var n := r.local[b].list[0];
               z in n.active && !Passed(r.lastQ, z, n)
  {
    hide Runs, After, Does, Does2, Step, Init, Stage, Wf;
    var s := Init(cpus, 2);
    var t, list, u;
    acts, t, list := StaleReaders(cpus, x, a, b, z);
    t := PausedSwaps(t, x, 1, 1, Last(list));
    acts := Extend2(s, acts, Inspect(x), Swap(x), t);
    t := TakeStage(t, x, x, {}, 1, Last(list));
    acts := Extend(s, acts, Take(x));
    assert Last(list)[1 := []] == Last(list) && Last(list)[2 := []] == Last(list);
    u, t := StaleTake(t, x, a, {}, 2, Last(list));
    acts := Extend3(s, acts, Swap(a), Load(a), Swap(a), u);
    acts := Extend(s, acts, Take(a));
    u, t := StaleTake(t, x, b, {} + {a}, 3, Last(list));
    acts := Extend3(s, acts, Swap(b), Load(b), Swap(b), u);
    acts := Extend(s, acts, Take(b));
  }

  /** Both a and b have read the complete mask when z defers an item. */
  lemma StaleReaders(cpus: set<Cpu>, x: Cpu, a: Cpu, b: Cpu, z: Cpu)
    returns (acts: seq<Action>, t: State, list: seq<Node>)
    requires Four(cpus, x, a, b, z)
    ensures Runs(Init(cpus, 2), acts) && t == After(Init(cpus, 2), acts) && t.cpus == cpus
    ensures Stage(t, x, cpus, 1, Last(list)) && Waits(t, z, list) && t.local[x] == Inspecting(cpus, 1)
    ensures t.local[z].Outside?
    ensures t.local[a] == Swapping(cpus, {x}, true, 0) && t.local[b] == Swapping(cpus, {x}, true, 0)
  {
    var s := Init(cpus, 2);
    acts := ReachFullMask(cpus, x, a);
    hide Runs, After, Does, Stage, Enabled, Step, Init, Wf;
    t := ReadFull(After(s, acts), x, a, 1, NONE);
    acts := Extend3(s, acts, Enter(a), Load(a), Inspect(a), t);
    t := ReadFull(t, x, b, 1, NONE);
    acts := Extend3(s, acts, Enter(b), Load(b), Inspect(b), t);
    t, list := DeferLast(t, x, z, z, cpus);
    acts := Extend(s, acts, Defer(z, 0));
  }

  // ---------------------------------------------------------------------------------------------
  // With rcu_pause on two CPUs, the order of collection fails

  /** d collects an item while c has an older one in hand. */
  lemma Disordered(cpus: set<Cpu>, acts: seq<Action>, c: Cpu, n: Node, m: Node)
    requires Runs(Init(cpus, 2), acts) && n.at < m.at
    requires var r := After(Init(cpus, 2), acts);
             && c in r.cpus && r.local[c].Draining? && n in r.local[c].list
             && r.collected != [] && r.collected[|r.collected| - 1] == m
    ensures !(After(Init(cpus, 2), acts).collected <= After(Init(cpus, 2), acts).deferred)
  {
    hide Runs, After, Waiting, InHand, Init;
    ConservedRun(cpus, acts);
    var r := After(Init(cpus, 2), acts);
    ListIn(r, c, n);
    CountOnce(r.deferred, n);
    NotTwice(r.deferred, r.collected, n, Waiting(r.slots), InHand(r.local, r.cpus));
    OlderBefore(r.deferred, r.collected, n, m);
  }

  lemma ListIn(r: State, c: Cpu, n: Node)
    requires Wf(r) && c in r.cpus && r.local[c].Draining? && n in r.local[c].list
    ensures InHand(r.local, r.cpus)[n] >= 1
  {
    InHandSplit(r.local, r.cpus, c);
    hide InHand;
    assert n in multiset(r.local[c].list);
  }

  lemma NotTwice(all: seq<Node>, done: seq<Node>, n: Node, waiting: multiset<Node>, hand: multiset<Node>)
    requires multiset(all) == waiting + hand + multiset(done) && multiset(all)[n] <= 1 && hand[n] >= 1
    ensures n in all && n !in done
  {
    assert n in multiset(all);
    assert multiset(done)[n] == 0;
  }

  lemma OlderBefore(all: seq<Node>, done: seq<Node>, n: Node, m: Node)
    requires forall i, j :: 0 <= i < j < |all| ==> all[i].at < all[j].at
    requires n in all && n !in done && n.at < m.at && done != [] && done[|done| - 1] == m
    ensures !(done <= all)
  {
    var j :| 0 <= j < |all| && all[j] == n;
    var i := |done| - 1;
    assert j < |done| ==> done[j] != n;
  }

  lemma DeferScene(s: State, x: Cpu, d: Cpu, mask: set<Cpu>, gen: nat, lx: Local, slots: seq<seq<Node>>)
    returns (t: State, n: Node)
    requires Scene(s, x, mask, gen, lx, slots) && d in s.cpus && d != x
    ensures Enabled(s, Defer(d, 0)) && t == Step(s, Defer(d, 0)) && n.at == s.now
    ensures Scene(t, x, mask, gen, lx, Put(slots, (gen + 2) % NUM_GEN, n))
  {
    hide Enabled, Step;
    t, n := DeferStage(s, x, d, mask, gen, slots);
  }

  lemma InspectScene(s: State, x: Cpu, gen: nat, repeat: nat, slots: seq<seq<Node>>) returns (t: State)
    requires Scene(s, x, s.cpus, gen, Inspecting(s.cpus, repeat), slots)
    ensures Enabled(s, Inspect(x)) && t == Step(s, Inspect(x)) && t.cpus == s.cpus
    ensures Scene(t, x, s.cpus, gen, Swapping(s.cpus, {}, true, repeat), slots)
  {
    assert {x} - {x} == {};
    t := Step(s, Inspect(x));
  }

  /** x claims a generation with nothing in it, and the mask is complete once more. */
  lemma AnotherRound(cpus: set<Cpu>, acts: seq<Action>, x: Cpu, y: Cpu, gen: nat, repeat: nat, slots: seq<seq<Node>>)
    returns (longer: seq<Action>)
    requires x in cpus && y in cpus && x != y && Runs(Init(cpus, 2), acts) && |slots| == NUM_GEN
    requires slots[gen % NUM_GEN] == []
    requires Scene(After(Init(cpus, 2), acts), x, cpus, gen, Inspecting(cpus, repeat), slots)
    ensures Runs(Init(cpus, 2), longer)
    ensures Scene(After(Init(cpus, 2), longer), x, cpus, gen + 1, Inspecting(cpus, repeat + 1), slots)
  {
    hide Runs, After, Scene, Does2, Enabled, Step, Wf;
    var s := Init(cpus, 2);
    var t := InspectScene(After(s, acts), x, gen, repeat, slots);
    longer := Extend(s, acts, Inspect(x));
    t := ClaimScene2(t, x, cpus, gen, repeat, slots);
    longer := Extend(s, longer, Swap(x));
    t := ClaimScene3(t, x, y, gen, repeat, slots);
    longer := Extend2(s, longer, Take(x), Repeat(x), t);
    longer := FullRound(cpus, longer, x, y, gen + 1, repeat + 1, slots);
  }

  /** An item in each of two generations running, and a complete mask when the first is due. */
  lemma TwoItems(cpus: set<Cpu>, x: Cpu, a: Cpu) returns (acts: seq<Action>, n: Node, m: Node)
    requires x in cpus && a in cpus && x != a
    ensures Runs(Init(cpus, 2), acts) && n.at < m.at
    ensures Scene(After(Init(cpus, 2), acts), x, cpus, 2, Inspecting(cpus, 2), [[], [], [n], [m]])
  {
    hide Runs, After, Scene, Enabled, Step, Wf, Timely;
    var s := Init(cpus, 2);
    var t;
    acts := OpenScene(cpus, x);
    t, n := DeferScene(After(s, acts), x, a, {}, 0, Outside, NONE);
    acts := Extend(s, acts, Defer(a, 0));
    assert NONE[2] + [n] == [n];
    assert Put(NONE, 2, n) == [[], [], [n], []];
    acts := FirstRound(cpus, acts, x, a, [[], [], [n], []]);
    TimelyRun(cpus, acts);
    SceneMoment(After(s, acts), x, n);
    t, m := DeferScene(After(s, acts), x, a, {}, 1, Rejoining({}, 1), [[], [], [n], []]);
    acts := Extend(s, acts, Defer(a, 0));
    assert [] + [m] == [m];
    assert Put([[], [], [n], []], 3, m) == [[], [], [n], [] + [m]];
    acts := FullRound(cpus, acts, x, a, 1, 1, [[], [], [n], [m]]);
    acts := AnotherRound(cpus, acts, x, a, 1, 1, [[], [], [n], [m]]);
  }

  lemma SceneMoment(s: State, x: Cpu, n: Node)
    requires Scene(s, x, {}, 1, Rejoining({}, 1), [[], [], [n], []]) && Timely(s)
    ensures n.at < s.now
  {
    assert n in s.slots[2];
  }

  /** x has taken the older item, a the younger one. */
  lemma BothTake(s: State, x: Cpu, a: Cpu, n: Node, m: Node) returns (t: State)
    requires Duo(s, x, a, {a}, 2, Locking({}, 2), Locking({a}, 0), [[], [], [n], [m]])
    ensures Does(s, Take(x), Take(a), Collect(a), t) && x in t.cpus
    ensures t.local[x] == Draining({}, [n], 2) && t.collected == s.collected + [m]
  {
    var r := TakeStage(s, x, x, {a}, 2, [[], [], [n], [m]]);
    var u := TakeStage(r, x, a, {a}, 3, [[], [], [], [m]]);
    hide Stage, Wf;
    assert u.collected == s.collected && u.local[a] == Draining({a}, [m], 0);
    t := Step(u, Collect(a));
  }

  /** On any two CPUs, one of them pausing, an item can be collected before one deferred earlier. */
  lemma OrderBroken(cpus: set<Cpu>, x: Cpu, a: Cpu) returns (acts: seq<Action>)
    requires x in cpus && a in cpus && x != a
    ensures Runs(Init(cpus, 2), acts)
    ensures !(After(Init(cpus, 2), acts).collected <= After(Init(cpus, 2), acts).deferred)
  {
    hide Runs, After, Does, Enabled, Step, Init, Duo, Scene;
    var s := Init(cpus, 2);
    var n, m, t;
    acts, n, m := TwoItems(cpus, x, a);
    acts, t := BothClaim(cpus, acts, x, a, 2, 2, [[], [], [n], [m]]);
    t := BothTake(t, x, a, n, m);
    acts := Extend3(s, acts, Take(x), Take(a), Collect(a), t);
    Disordered(cpus, acts, x, n, m);
  }

  /** Items are collected in the order of their deferral over all runs exactly when there is at most
      one CPU or nobody pauses. */
  lemma OrderExactly(cpus: set<Cpu>, pausing: bool)
    ensures (forall acts :: Runs(Init(cpus, 2), acts) && (PauseFree(acts) || pausing) ==>
                              After(Init(cpus, 2), acts).collected <= After(Init(cpus, 2), acts).deferred)
            <==> (|cpus| <= 1 || !pausing)
  {
    hide Runs, After, PauseFree;
    if |cpus| > 1 && pausing {
      var x :| x in cpus;
      assert |cpus - {x}| == |cpus| - 1;
      var a :| a in cpus - {x};
      var acts := OrderBroken(cpus, x, a);
    } else {
      forall acts | Runs(Init(cpus, 2), acts) && (PauseFree(acts) || pausing)
        ensures After(Init(cpus, 2), acts).collected <= After(Init(cpus, 2), acts).deferred
      {
        if |cpus| <= 1 {
          AloneUndisturbed(cpus, acts);
        } else {
          PauseFreeUndisturbed(cpus, acts);
        }
        ExclusionAndOrder(cpus, acts);
      }
    }
  }

  // ---------------------------------------------------------------------------------------------
  // A look-ahead of one generation is not enough, even without pauses

  /** Two CPUs x and z, neither pausing, z outside rcu_check. */
  ghost predicate Two(s: State, x: Cpu, z: Cpu, mask: set<Cpu>, gen: nat, slots: seq<seq<Node>>, lx: Local) {
    && Wf(s) && x != z && s.cpus == {x, z} && s.ahead == 1
    && s.genMask == mask && s.inactive == {} && s.gen == gen && s.slots == slots
    && s.local[x] == lx && s.local[z].Outside?
    && s.mode[x].Running? && s.mode[z].Running?
    && s.lastQ[z] < s.now
  }

  lemma TwoMarks(s: State, x: Cpu, z: Cpu, lx: Local) returns (t: State)
    requires Two(s, x, z, {}, 0, [[], [], [], []], lx)
    ensures Does(s, Enter(z), Load(z), Swap(z), t) && Two(t, x, z, {z}, 0, [[], [], [], []], lx)
  {
    hide Disturbs;
    var s1 := Step(s, Enter(z));
    assert x !in {} + {z};
    assert {} + {z} == {z};
    var s2 := Step(s1, Load(z));
    assert s2.local[z] == Swapping({}, {z}, false, 0);
    t := Step(s2, Swap(z));
  }

  lemma TwoReads(s: State, x: Cpu, z: Cpu) returns (t: State)
    requires Two(s, x, z, {z}, 0, [[], [], [], []], Outside)
    ensures Does(s, Enter(x), Load(x), Inspect(x), t)
    ensures Two(t, x, z, {z}, 0, [[], [], [], []], Swapping({z}, {}, true, 0))
  {
    var s1 := Step(s, Enter(x));
    assert {z} + {x} == s.cpus;
    var s2 := Step(s1, Load(x));
    assert s2.local[x] == Inspecting({z}, 0);
    t := Step(s2, Inspect(x));
    assert {} - {x} == {};
  }

  lemma TwoRepeats(s: State, x: Cpu, z: Cpu, list: seq<Node>) returns (t: State)
    requires Two(s, x, z, {z}, 0, [[], list, [], []], Locking({}, 0))
    ensures Does(s, Take(x), Repeat(x), Load(x), t) && t.lastQ == s.lastQ
    ensures Two(t, x, z, {z}, 1, [[], list, [], []], Inspecting({z}, 1))
  {
    var s1 := Step(s, Take(x));
    assert s1.local[x] == Draining({}, [], 0);
    assert {z} + {x} == s.cpus;
    var s2 := Step(s1, Repeat(x));
    assert s2.local[x] == Loading(false, 1);
    t := Step(s2, Load(x));
  }

  lemma TwoTakes(s: State, x: Cpu, z: Cpu, list: seq<Node>) returns (t: State)
    requires Two(s, x, z, {z}, 1, [[], list, [], []], Inspecting({z}, 1))
    ensures Does(s, Inspect(x), Swap(x), Take(x), t)
    ensures t.local[x] == Draining({}, list, 1) && t.lastQ[z] == s.lastQ[z]
  {
    hide Disturbs;
    var s1 := Step(s, Inspect(x));
    assert {} - {x} == {};
    var s2 := Step(s1, Swap(x));
    assert s2.local[x] == Locking({}, 1);
    t := Step(s2, Take(x));
  }

  lemma TwoDefers(s: State, x: Cpu, z: Cpu, lx: Local) returns (list: seq<Node>)
    requires Two(s, x, z, {z}, 0, [[], [], [], []], lx)
    ensures Enabled(s, Defer(z, 0)) && Two(Step(s, Defer(z, 0)), x, z, {z}, 0, [[], list, [], []], lx)
    ensures Waits(Step(s, Defer(z, 0)), z, list)
  {
    list := [Node(0, 0, s.now, s.cpus - s.inactive)];
    var t := Step(s, Defer(z, 0));
    assert t.slots[1] == list;
    assert t.slots == [[], list, [], []];
  }

  lemma TwoClaims(s: State, x: Cpu, z: Cpu)
    requires Two(s, x, z, {z}, 0, [[], [], [], []], Swapping({z}, {}, true, 0))
    ensures Enabled(s, Swap(x)) && Two(Step(s, Swap(x)), x, z, {}, 0, [[], [], [], []], Locking({}, 0))
  {
  }

  lemma TwoStart(x: Cpu, z: Cpu)
    requires x != z
    ensures Runs(Init({x, z}, 1), []) && Two(After(Init({x, z}, 1), []), x, z, {}, 0, [[], [], [], []], Outside)
  {
  }

  /** x has opened the round without having moved gen_count, and z has marked itself in it. */
  lemma TwoOpen(x: Cpu, z: Cpu) returns (acts: seq<Action>)
    requires x != z
    ensures Runs(Init({x, z}, 1), acts)
    ensures Two(After(Init({x, z}, 1), acts), x, z, {z}, 0, [[], [], [], []], Locking({}, 0))
  {
    hide Runs, After, Does, Two, Step, Init, Wf, Enabled;
    var s := Init({x, z}, 1);
    TwoStart(x, z);
    var t := TwoMarks(After(s, []), x, z, Outside);
    acts := Extend3(s, [], Enter(z), Load(z), Swap(z), t);
    t := TwoReads(t, x, z);
    acts := Extend3(s, acts, Enter(x), Load(x), Inspect(x), t);
    TwoClaims(t, x, z);
    acts := Extend(s, acts, Swap(x));
    t := TwoMarks(After(s, acts), x, z, Locking({}, 0));
    acts := Extend3(s, acts, Enter(z), Load(z), Swap(z), t);
  }

  /** With a look-ahead of one, z can defer an item after the round was opened and before
      gen_count moved, and see it collected with no quiescent point of its own in between. */
  lemma OneAheadBreaksGrace(x: Cpu, z: Cpu) returns (acts: seq<Action>)
    requires x != z
    ensures Runs(Init({x, z}, 1), acts)
    ensures var r := After(Init({x, z}, 1), acts);
            && Enabled(r, Collect(x))
            && var n := r.local[x].list[0];
               z in n.active && !Passed(r.lastQ, z, n)
  {
    hide Runs, After, Does, Two, Step, Init;
    var s := Init({x, z}, 1);
    acts := TwoOpen(x, z);
    var list := TwoDefers(After(s, acts), x, z, Locking({}, 0));
    acts := Extend(s, acts, Defer(z, 0));
    var t := TwoRepeats(After(s, acts), x, z, list);
    acts := Extend3(s, acts, Take(x), Repeat(x), Load(x), t);
    t := TwoTakes(t, x, z, list);
    acts := Extend3(s, acts, Inspect(x), Swap(x), Take(x), t);
  }
}
