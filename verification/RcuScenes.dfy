/** Building blocks of particular runs: one CPU in a pause, the others outside or on their way
    through rcu_check. */
module RcuScenes {
  import opened Rcu

  const NONE: seq<seq<Node>> := [[], [], [], []]

  // ---------------------------------------------------------------------------------------------
  // Longer runs

  /** One more action. */
  lemma Extend(s: State, acts: seq<Action>, a: Action) returns (longer: seq<Action>)
    requires Wf(s) && Runs(s, acts) && Enabled(After(s, acts), a)
    ensures Runs(s, longer) && After(s, longer) == Step(After(s, acts), a)
  {
    longer := acts + [a];
    assert longer[..|longer| - 1] == acts;
  }

  /** Two actions lead from s to t. */
  ghost predicate Does2(s: State, a: Action, b: Action, t: State) {
    Wf(s) && Enabled(s, a) && Enabled(Step(s, a), b) && t == Step(Step(s, a), b)
  }

  /** Three actions lead from s to t. */
  ghost predicate Does(s: State, a: Action, b: Action, c: Action, t: State) {
    && Wf(s) && Enabled(s, a)
    && Enabled(Step(s, a), b)
    && Enabled(Step(Step(s, a), b), c)
    && t == Step(Step(Step(s, a), b), c)
  }

  lemma Extend2(s: State, acts: seq<Action>, a: Action, b: Action, t: State) returns (longer: seq<Action>)
    requires Wf(s) && Runs(s, acts) && Does2(After(s, acts), a, b, t)
    ensures Runs(s, longer) && After(s, longer) == t
  {
    hide Runs, After, Enabled, Step;
    var front := Extend(s, acts, a);
    longer := Extend(s, front, b);
  }

  lemma Extend3(s: State, acts: seq<Action>, a: Action, b: Action, c: Action, t: State) returns (longer: seq<Action>)
    requires Wf(s) && Runs(s, acts) && Does(After(s, acts), a, b, c, t)
    ensures Runs(s, longer) && After(s, longer) == t
  {
    hide Runs, After, Enabled, Step;
    var a1 := Extend(s, acts, a);
    var a2 := Extend(s, a1, b);
    longer := Extend(s, a2, c);
  }

  // ---------------------------------------------------------------------------------------------
  // One CPU in a pause, the others outside

  /** x is the only CPU in a pause, with the given mask, generation and slots. */
  ghost predicate Stage(s: State, x: Cpu, mask: set<Cpu>, gen: nat, slots: seq<seq<Node>>) {
    && Wf(s) && x in s.cpus && s.ahead == 2
    && s.genMask == mask && s.inactive == {x} && s.gen == gen
    && s.slots == slots
    && (forall c :: c in s.cpus ==> s.lastQ[c] < s.now)
  }

  /** Moreover x stands at lx and everyone else is outside and running. */
  ghost predicate Scene(s: State, x: Cpu, mask: set<Cpu>, gen: nat, lx: Local, slots: seq<seq<Node>>) {
    && Stage(s, x, mask, gen, slots)
    && s.local[x] == lx
    && (lx.Outside? ==> s.mode[x] == Paused(0, false))
    && (forall c :: c in s.cpus && c != x ==> s.local[c].Outside? && s.mode[c].Running?)
  }

  /** Nobody but those in who has been quiescent between s and t. */
  ghost predicate QuietBut(s: State, t: State, who: set<Cpu>) {
    && t.cpus == s.cpus
    && forall c :: c in s.cpus && c !in who && c in s.lastQ && c in t.lastQ ==> t.lastQ[c] == s.lastQ[c]
  }

  lemma QuietStart(s: State, who: set<Cpu>)
    ensures QuietBut(s, s, who)
  {
  }

  lemma QuietThen(s: State, t: State, u: State, a: set<Cpu>, b: set<Cpu>, who: set<Cpu>)
    requires Wf(s) && Wf(t) && Wf(u) && QuietBut(s, t, a) && QuietBut(t, u, b) && a <= who && b <= who
    ensures QuietBut(s, u, who)
  {
  }

  lemma MarkScene(s: State, c: Cpu, x: Cpu, mask: set<Cpu>, gen: nat, lx: Local, slots: seq<seq<Node>>)
    returns (t: State)
    requires Scene(s, x, mask, gen, lx, slots) && c in s.cpus && c != x && x !in mask
    ensures Does(s, Enter(c), Load(c), Swap(c), t) && Scene(t, x, mask + {c}, gen, lx, slots) && QuietBut(s, t, {c})
  {
    hide Step, Scene, Enabled;
    var r := MarkScene1(s, c, x, mask, gen, lx, slots);
    t := MarkScene2(r, c, x, mask, gen, lx, slots);
    SceneWf(s, x, mask, gen, lx, slots);
  }

  lemma SceneWf(s: State, x: Cpu, mask: set<Cpu>, gen: nat, lx: Local, slots: seq<seq<Node>>)
    requires Scene(s, x, mask, gen, lx, slots)
    ensures Wf(s) && x in s.cpus
  {
  }

  lemma MarkScene2(s: State, c: Cpu, x: Cpu, mask: set<Cpu>, gen: nat, lx: Local, slots: seq<seq<Node>>)
    returns (t: State)
    requires Wf(s) && c in s.cpus && s.local[c] == Swapping(mask, mask + {c}, false, 0) && c != x
    requires Scene(s.(local := s.local[c := Outside]), x, mask, gen, lx, slots)
    ensures Enabled(s, Swap(c)) && t == Step(s, Swap(c))
    ensures Scene(t, x, mask + {c}, gen, lx, slots) && QuietBut(s, t, {c})
  {
    hide Disturbs;
    t := Step(s, Swap(c));
  }

  lemma MarkScene1(s: State, c: Cpu, x: Cpu, mask: set<Cpu>, gen: nat, lx: Local, slots: seq<seq<Node>>)
    returns (t: State)
    requires Scene(s, x, mask, gen, lx, slots) && c in s.cpus && c != x && x !in mask
    ensures Enabled(s, Enter(c)) && Enabled(Step(s, Enter(c)), Load(c)) && t == Step(Step(s, Enter(c)), Load(c))
    ensures Wf(t) && c in t.cpus && t.local[c] == Swapping(mask, mask + {c}, false, 0) && t.lastQ == s.lastQ
    ensures t.cpus == s.cpus
    ensures Scene(t.(local := t.local[c := Outside]), x, mask, gen, lx, slots)
  {
    assert x !in mask + {c};
    t := Step(Step(s, Enter(c)), Load(c));
    assert t.(local := t.local[c := Outside]) == s;
  }

  /** All CPUs in todo mark themselves; without x the mask stays incomplete. */
  lemma {:induction false} MarkAll(s: State, acts: seq<Action>, todo: set<Cpu>, x: Cpu, mask: set<Cpu>, gen: nat,
                                   lx: Local, slots: seq<seq<Node>>)
    returns (longer: seq<Action>)
    requires Wf(s) && Runs(s, acts) && Scene(After(s, acts), x, mask, gen, lx, slots)
    requires todo <= s.cpus - {x} && x !in mask
    ensures Runs(s, longer) && Scene(After(s, longer), x, mask + todo, gen, lx, slots)
    ensures QuietBut(After(s, acts), After(s, longer), todo)
    decreases todo
  {
    hide Runs, After, Scene, Does, QuietBut;
    longer := acts;
    QuietStart(After(s, acts), todo);
    if todo == {} {
      assert mask + todo == mask;
    } else {
      var c :| c in todo;
      var t := MarkScene(After(s, acts), c, x, mask, gen, lx, slots);
      var first := Extend3(s, acts, Enter(c), Load(c), Swap(c), t);
      longer := MarkAll(s, first, todo - {c}, x, mask + {c}, gen, lx, slots);
      QuietThen(After(s, acts), After(s, first), After(s, longer), {c}, todo - {c}, todo);
      assert mask + {c} + (todo - {c}) == mask + todo;
    }
  }

  // ---------------------------------------------------------------------------------------------
  // Rounds of the paused CPU

  lemma PauseScene(s: State, x: Cpu)
    requires s == Init(s.cpus, 2) && x in s.cpus
    ensures Enabled(s, PauseStart(x)) && Enabled(Step(s, PauseStart(x)), PauseEnter(x))
    ensures Scene(Step(Step(s, PauseStart(x)), PauseEnter(x)), x, {}, 0, Outside, NONE)
  {
  }

  lemma OpenScene(cpus: set<Cpu>, x: Cpu) returns (acts: seq<Action>)
    requires x in cpus
    ensures Runs(Init(cpus, 2), acts) && Scene(After(Init(cpus, 2), acts), x, {}, 0, Outside, NONE)
  {
    var s := Init(cpus, 2);
    PauseScene(s, x);
    assert Runs(s, []) && After(s, []) == s;
    hide Runs, After, Scene, Enabled, Step;
    acts := Extend(s, [], PauseStart(x));
    acts := Extend(s, acts, PauseEnter(x));
  }

  /** x finds everyone else marked ... */
  lemma ClaimScene1(s: State, x: Cpu, slots: seq<seq<Node>>) returns (t: State)
    requires Scene(s, x, s.cpus - {x}, 0, Outside, slots)
    ensures Does(s, Enter(x), Load(x), Inspect(x), t)
    ensures Scene(t, x, s.cpus - {x}, 0, Swapping(s.cpus - {x}, {}, true, 0), slots) && t.cpus == s.cpus
  {
    var s2 := Step(Step(s, Enter(x)), Load(x));
    assert s.cpus - {x} + {x} == s.cpus;
    assert s2.local[x] == Inspecting(s.cpus - {x}, 0);
    t := Step(s2, Inspect(x));
    assert {x} - {x} == {};
  }

  /** ... claims the generation ... */
  lemma ClaimScene2(s: State, x: Cpu, mask: set<Cpu>, gen: nat, repeat: nat, slots: seq<seq<Node>>) returns (t: State)
    requires Scene(s, x, mask, gen, Swapping(mask, {}, true, repeat), slots)
    ensures Enabled(s, Swap(x)) && t == Step(s, Swap(x)) && t.cpus == s.cpus
    ensures Scene(t, x, {}, gen, Locking({}, repeat), slots)
  {
    hide Disturbs;
    t := Step(s, Swap(x));
  }

  /** ... has nothing to collect and finishes it ... */
  lemma ClaimScene3(s: State, x: Cpu, y: Cpu, gen: nat, repeat: nat, slots: seq<seq<Node>>) returns (t: State)
    requires Scene(s, x, {}, gen, Locking({}, repeat), slots) && y in s.cpus && y != x && slots[gen % NUM_GEN] == []
    ensures Does2(s, Take(x), Repeat(x), t) && t.cpus == s.cpus
    ensures Scene(t, x, {}, gen + 1, Rejoining({}, repeat + 1), slots)
  {
    hide Disturbs;
    var r := Step(s, Take(x));
    assert r.slots == s.slots && r.local[x] == Draining({}, [], repeat);
    assert y !in {} + {x};
    t := Step(r, Repeat(x));
  }

  /** ... and completes the mask of the next one by rejoining it. */
  lemma RejoinScene(s: State, x: Cpu, y: Cpu, gen: nat, repeat: nat, slots: seq<seq<Node>>) returns (t: State)
    requires Scene(s, x, s.cpus - {x}, gen, Rejoining({}, repeat), slots) && y in s.cpus && y != x
    ensures Does(s, Rejoin(x), Recheck(x), Load(x), t)
    ensures Scene(t, x, s.cpus, gen, Inspecting(s.cpus, repeat), slots) && t.cpus == s.cpus
  {
    hide Disturbs;
    var s1 := Step(s, Rejoin(x));
    assert s1.genMask == s.cpus;
    assert y !in {} + {x};
    assert Step(s1, Recheck(x)).local[x] == Loading(false, repeat);
    t := Step(Step(s1, Recheck(x)), Load(x));
    assert s.cpus + {x} == s.cpus;
  }

  /** The first generation: the others mark themselves and x claims and finishes it. */
  lemma FirstRound(cpus: set<Cpu>, acts: seq<Action>, x: Cpu, y: Cpu, slots: seq<seq<Node>>)
    returns (longer: seq<Action>)
    requires x in cpus && y in cpus && x != y && Runs(Init(cpus, 2), acts) && |slots| == NUM_GEN && slots[0] == []
    requires Scene(After(Init(cpus, 2), acts), x, {}, 0, Outside, slots)
    ensures Runs(Init(cpus, 2), longer) && Scene(After(Init(cpus, 2), longer), x, {}, 1, Rejoining({}, 1), slots)
  {
    hide Runs, After, Scene, Does, Does2, Enabled, Step, Wf;
    var s := Init(cpus, 2);
    longer := MarkAll(s, acts, cpus - {x}, x, {}, 0, Outside, slots);
    assert {} + (cpus - {x}) == cpus - {x};
    var t := ClaimScene1(After(s, longer), x, slots);
    longer := Extend3(s, longer, Enter(x), Load(x), Inspect(x), t);
    t := ClaimScene2(t, x, cpus - {x}, 0, 0, slots);
    longer := Extend(s, longer, Swap(x));
    t := ClaimScene3(t, x, y, 0, 0, slots);
    longer := Extend2(s, longer, Take(x), Repeat(x), t);
  }

  /** The others mark themselves, x rejoins and reads the mask it completed. */
  lemma FullRound(cpus: set<Cpu>, acts: seq<Action>, x: Cpu, y: Cpu, gen: nat, repeat: nat, slots: seq<seq<Node>>)
    returns (longer: seq<Action>)
    requires x in cpus && y in cpus && x != y && Runs(Init(cpus, 2), acts)
    requires Scene(After(Init(cpus, 2), acts), x, {}, gen, Rejoining({}, repeat), slots)
    ensures Runs(Init(cpus, 2), longer)
    ensures Scene(After(Init(cpus, 2), longer), x, cpus, gen, Inspecting(cpus, repeat), slots)
  {
    hide Runs, After, Scene, Does, Wf;
    var s := Init(cpus, 2);
    longer := MarkAll(s, acts, cpus - {x}, x, {}, gen, Rejoining({}, repeat), slots);
    assert {} + (cpus - {x}) == cpus - {x};
    var t := RejoinScene(After(s, longer), x, y, gen, repeat, slots);
    longer := Extend3(s, longer, Rejoin(x), Recheck(x), Load(x), t);
  }

  /** A complete mask, read by a CPU that has not swapped: x in a pause, any other CPU free. */
  lemma ReachFullMask(cpus: set<Cpu>, x: Cpu, y: Cpu) returns (acts: seq<Action>)
    requires x in cpus && y in cpus && x != y
    ensures Runs(Init(cpus, 2), acts) && Scene(After(Init(cpus, 2), acts), x, cpus, 1, Inspecting(cpus, 1), NONE)
  {
    hide Runs, After, Scene;
    acts := OpenScene(cpus, x);
    acts := FirstRound(cpus, acts, x, y, NONE);
    acts := FullRound(cpus, acts, x, y, 1, 1, NONE);
  }

  // ---------------------------------------------------------------------------------------------
  // Stale claims

  /** Nothing about the CPUs other than a has changed. */
  ghost predicate OthersSame(s: State, t: State, a: Cpu)
    requires Wf(s) && Wf(t)
  {
    && t.cpus == s.cpus
    && forall c :: c in s.cpus && c != a ==>
                     t.local[c] == s.local[c] && t.mode[c] == s.mode[c] && t.lastQ[c] == s.lastQ[c]
  }

  lemma EnterStage(s: State, x: Cpu, a: Cpu, mask: set<Cpu>, gen: nat, slots: seq<seq<Node>>) returns (t: State)
    requires Stage(s, x, mask, gen, slots) && a in s.cpus && s.local[a].Outside? && s.mode[a].Running?
    ensures Enabled(s, Enter(a)) && t == Step(s, Enter(a)) && Stage(t, x, mask, gen, slots)
    ensures t.local[a] == Loading(false, 0) && OthersSame(s, t, a) && t.mode == s.mode
  {
    t := Step(s, Enter(a));
  }

  lemma LoadStage(s: State, x: Cpu, a: Cpu, gen: nat, slots: seq<seq<Node>>) returns (t: State)
    requires Stage(s, x, s.cpus, gen, slots) && a in s.cpus && a != x && s.local[a] == Loading(false, 0)
    ensures Does2(s, Load(a), Inspect(a), t) && Stage(t, x, s.cpus, gen, slots)
    ensures t.local[a] == Swapping(s.cpus, {x}, true, 0) && OthersSame(s, t, a) && t.mode == s.mode
  {
    assert s.cpus + {a} == s.cpus && {x} - {a} == {x};
    t := Step(Step(s, Load(a)), Inspect(a));
  }

  /** A free CPU reads the complete mask and means to claim the generation. */
  lemma ReadFull(s: State, x: Cpu, a: Cpu, gen: nat, slots: seq<seq<Node>>) returns (t: State)
    requires Stage(s, x, s.cpus, gen, slots) && a in s.cpus && a != x && s.local[a].Outside? && s.mode[a].Running?
    ensures Does(s, Enter(a), Load(a), Inspect(a), t)
    ensures Stage(t, x, s.cpus, gen, slots)
    ensures t.local[a] == Swapping(s.cpus, {x}, true, 0) && OthersSame(s, t, a) && t.mode == s.mode
  {
    hide Enabled, Step;
    var r := EnterStage(s, x, a, s.cpus, gen, slots);
    t := LoadStage(r, x, a, gen, slots);
  }

  /** x swaps first. */
  lemma PausedSwaps(s: State, x: Cpu, gen: nat, repeat: nat, slots: seq<seq<Node>>) returns (t: State)
    requires Stage(s, x, s.cpus, gen, slots) && s.local[x] == Inspecting(s.cpus, repeat)
    ensures Does2(s, Inspect(x), Swap(x), t)
    ensures Stage(t, x, {}, gen, slots) && t.local[x] == Locking({}, repeat) && OthersSame(s, t, x) && t.mode == s.mode
  {
    hide Disturbs;
    assert {x} - {x} == {};
    t := Step(Step(s, Inspect(x)), Swap(x));
  }

  /** The list due is taken. */
  lemma TakeStage(s: State, x: Cpu, a: Cpu, mask: set<Cpu>, gen: nat, slots: seq<seq<Node>>) returns (t: State)
    requires Stage(s, x, mask, gen, slots) && a in s.cpus && s.local[a].Locking?
    ensures Enabled(s, Take(a)) && t == Step(s, Take(a))
    ensures Stage(t, x, mask, gen + 1, slots[gen % NUM_GEN := []]) && OthersSame(s, t, a) && t.mode == s.mode
    ensures t.lastQ == s.lastQ
    ensures t.local[a] == Draining(s.local[a].next, slots[gen % NUM_GEN], s.local[a].repeat)
  {
    t := Step(s, Take(a));
  }

  /** The swap fails and do_cleanup stays set through the next pass. */
  lemma LoserRetries(s: State, x: Cpu, a: Cpu, y: Cpu, mask: set<Cpu>, gen: nat, slots: seq<seq<Node>>)
    returns (t: State)
    requires Stage(s, x, mask, gen, slots) && a in s.cpus && s.local[a] == Swapping(s.cpus, {x}, true, 0)
    requires y in s.cpus && y != a && y !in mask
    ensures Does2(s, Swap(a), Load(a), t)
    ensures Stage(t, x, mask, gen, slots) && t.local[a] == Swapping(mask, mask + {a}, true, 0)
    ensures OthersSame(s, t, a) && t.mode == s.mode
  {
    hide Disturbs;
    assert s.genMask != s.cpus;
    var s1 := Step(s, Swap(a));
    assert s1.local[a] == Loading(true, 0);
    assert y !in mask + {a};
    t := Step(s1, Load(a));
  }

  lemma ClaimStage(s: State, x: Cpu, a: Cpu, mask: set<Cpu>, gen: nat, slots: seq<seq<Node>>) returns (t: State)
    requires Stage(s, x, mask, gen, slots) && a in s.cpus && s.local[a] == Swapping(mask, mask + {a}, true, 0)
    ensures Enabled(s, Swap(a)) && t == Step(s, Swap(a))
    ensures Stage(t, x, mask + {a}, gen, slots) && t.local[a] == Locking(mask + {a}, 0)
    ensures OthersSame(s, t, a) && t.mode == s.mode
  {
    hide Disturbs;
    t := Step(s, Swap(a));
  }

  /** A CPU that read the complete mask loses the swap, goes round, and claims all the same. */
  lemma LoserClaims(s: State, x: Cpu, a: Cpu, y: Cpu, mask: set<Cpu>, gen: nat, slots: seq<seq<Node>>)
    returns (t: State)
    requires Stage(s, x, mask, gen, slots) && a in s.cpus && s.local[a] == Swapping(s.cpus, {x}, true, 0)
    requires y in s.cpus && y != a && y !in mask
    ensures Does(s, Swap(a), Load(a), Swap(a), t)
    ensures Stage(t, x, mask + {a}, gen, slots) && t.local[a] == Locking(mask + {a}, 0)
    ensures OthersSame(s, t, a) && t.mode == s.mode
  {
    hide Enabled, Step;
    var r := LoserRetries(s, x, a, y, mask, gen, slots);
    t := ClaimStage(r, x, a, mask, gen, slots);
  }

  // ---------------------------------------------------------------------------------------------
  // Deferring

  /** The slots with one more item. */
  ghost function Put(slots: seq<seq<Node>>, k: nat, n: Node): seq<seq<Node>>
    requires k < |slots|
  {
    slots[k := slots[k] + [n]]
  }

  /** d, outside rcu_check, defers an item. */
  lemma DeferStage(s: State, x: Cpu, d: Cpu, mask: set<Cpu>, gen: nat, slots: seq<seq<Node>>)
    returns (t: State, n: Node)
    requires Stage(s, x, mask, gen, slots) && d in s.cpus && s.local[d].Outside?
    ensures Enabled(s, Defer(d, 0)) && t == Step(s, Defer(d, 0))
    ensures Stage(t, x, mask, gen, Put(slots, (gen + 2) % NUM_GEN, n)) && n == Node(0, gen, s.now, s.cpus - {x})
    ensures t.cpus == s.cpus && t.local == s.local && t.mode == s.mode && t.lastQ == s.lastQ && t.now == s.now + 1
  {
    n := Node(0, gen, s.now, s.cpus - s.inactive);
    t := Step(s, Defer(d, 0));
  }
}
