/** The read-copy-update generation protocol of hype/rcu.c.

    The protocol is a state machine over the shared words `gen_mask`, `inactive_mask` and
    `gen_count`, the four deferred-work lists, and one control state per CPU.  Every read of a
    shared word and every compare-and-swap of the marking loop is a step of its own, so a CPU can
    be overtaken between reading `gen_mask`, reading `inactive_mask` and swapping.  The two
    sections under `rcu_lock` are single steps, and so is each collector call. */
module Rcu {

  type Cpu = nat

  const NUM_GEN: nat := 4

  /** A deferred item: an identity, and what was true when it was deferred - the generation count,
      the moment, and the CPUs that were active (not in `inactive_mask`). */
  datatype Node = Node(id: nat, gen: nat, at: nat, active: set<Cpu>)

  /** Where a CPU stands inside rcu_check, with the locals live there. `claim` is do_cleanup and
      `next` is new_gen. */
  datatype Local =
    | Outside
    | Loading(claim: bool, repeat: nat)
    | Inspecting(seen: set<Cpu>, repeat: nat)
    | Swapping(seen: set<Cpu>, next: set<Cpu>, claim: bool, repeat: nat)
    | Locking(next: set<Cpu>, repeat: nat)
    | Draining(next: set<Cpu>, list: seq<Node>, repeat: nat)
    | Rejoining(next: set<Cpu>, repeat: nat)
    | Rechecking(next: set<Cpu>, repeat: nat)

  /** Where a CPU stands inside rcu_pause. */
  datatype Mode = Running | Starting(start: nat) | Paused(start: nat, checked: bool)

  /** `now`, `lastQ`, `deferred`, `collected` and `disturbed` are history: a clock, the moment of
      each CPU's last quiescent point, everything handed to rcu_defer, everything whose collector
      ran, and whether `gen_mask` ever changed under a CPU that had found the round complete and
      had not swapped yet.  `ahead` is the distance rcu_defer looks ahead, 2 in the source. */
  datatype State = State(
    cpus: set<Cpu>,
    ahead: nat,
    genMask: set<Cpu>,
    inactive: set<Cpu>,
    gen: nat,
    slots: seq<seq<Node>>,
    local: map<Cpu, Local>,
    mode: map<Cpu, Mode>,
    now: nat,
    lastQ: map<Cpu, nat>,
    deferred: seq<Node>,
    collected: seq<Node>,
    disturbed: bool)

  ghost predicate Wf(s: State) {
    && s.genMask <= s.cpus
    && s.inactive <= s.cpus
    && |s.slots| == NUM_GEN
    && s.local.Keys == s.cpus
    && s.mode.Keys == s.cpus
    && s.lastQ.Keys == s.cpus
    && (forall c :: c in s.cpus ==> (c in s.inactive <==> s.mode[c].Paused?))
  }

  function Init(cpus: set<Cpu>, ahead: nat): (s: State)
    ensures Wf(s) && s.cpus == cpus && s.ahead == ahead
  {
    State(cpus, ahead, {}, {}, 0, [[], [], [], []],
          map c | c in cpus :: Outside, map c | c in cpus :: Running,
          1, map c | c in cpus :: 0, [], [], false)
  }

  datatype Action =
    | Enter(c: Cpu)
    | Load(c: Cpu)
    | Inspect(c: Cpu)
    | Swap(c: Cpu)
    | Take(c: Cpu)
    | Collect(c: Cpu)
    | Repeat(c: Cpu)
    | Rejoin(c: Cpu)
    | Recheck(c: Cpu)
    | PauseStart(c: Cpu)
    | PauseEnter(c: Cpu)
    | PauseLeave(c: Cpu)
    | Defer(c: Cpu, id: nat)

  /** CPU d has read a mask that completes the round and has not swapped yet. */
  ghost predicate Watching(s: State, d: Cpu)
    requires Wf(s)
  {
    && d in s.cpus
    && (s.local[d].Inspecting? || s.local[d].Swapping?)
    && s.local[d].seen + {d} == s.cpus
  }

  /** CPU c gives gen_mask a new value under another CPU that is watching it. */
  ghost predicate Disturbs(s: State, c: Cpu, mask: set<Cpu>)
    requires Wf(s)
  {
    mask != s.genMask && exists d :: d != c && Watching(s, d)
  }

  /** When an action can be taken. rcu_defer is called outside rcu_check, or by a collector. */
  ghost predicate Enabled(s: State, a: Action)
    requires Wf(s)
  {
    && a.c in s.cpus
    && var l := s.local[a.c];
       var m := s.mode[a.c];
       match a
       case Enter(_) => l.Outside? && !m.Starting? && (m.Paused? && m.checked ==> s.gen == m.start)
       case Load(_) => l.Loading?
       case Inspect(_) => l.Inspecting?
       case Swap(_) => l.Swapping? && l.next <= s.cpus
       case Take(_) => l.Locking?
       case Collect(_) => l.Draining? && l.list != []
       case Repeat(_) => l.Draining? && l.list == []
       case Rejoin(_) => l.Rejoining?
       case Recheck(_) => l.Rechecking?
       case PauseStart(_) => l.Outside? && m.Running?
       case PauseEnter(_) => m.Starting?
       case PauseLeave(_) => l.Outside? && m.Paused? && m.checked && s.gen != m.start
       case Defer(_, _) => l.Outside? || l.Draining?
  }

  function SetLocal(s: State, c: Cpu, l: Local): State {
    s.(local := s.local[c := l])
  }

  /** CPU c passes a quiescent point. */
  function Quiesce(s: State, c: Cpu): State {
    s.(lastQ := s.lastQ[c := s.now], now := s.now + 1)
  }

  ghost function SetMask(s: State, c: Cpu, mask: set<Cpu>): State
    requires Wf(s)
  {
    s.(genMask := mask, disturbed := s.disturbed || Disturbs(s, c, mask))
  }

  // rcu.c:79-85, and 49 when called from rcu_pause
  ghost function DoEnter(s: State, c: Cpu): (r: State)
    requires Wf(s) && Enabled(s, Enter(c))
    ensures Wf(r) && r.cpus == s.cpus && r.ahead == s.ahead && (s.disturbed ==> r.disturbed)
  {
    var m := s.mode[c];
    SetLocal(s, c, Loading(false, 0)).(mode := s.mode[c := if m.Paused? then m.(checked := true) else m])
  }

  // rcu.c:86-94, the read of gen_mask
  ghost function DoLoad(s: State, c: Cpu): (r: State)
    requires Wf(s) && Enabled(s, Load(c))
    ensures Wf(r) && r.cpus == s.cpus && r.ahead == s.ahead && (s.disturbed ==> r.disturbed)
  {
    var l := s.local[c];
    SetLocal(s, c,
             if s.genMask + {c} == s.cpus then Inspecting(s.genMask, l.repeat)
             else Swapping(s.genMask, s.genMask + {c}, l.claim, l.repeat))
  }

  // rcu.c:92-93, the read of inactive_mask
  ghost function DoInspect(s: State, c: Cpu): (r: State)
    requires Wf(s) && Enabled(s, Inspect(c))
    ensures Wf(r) && r.cpus == s.cpus && r.ahead == s.ahead && (s.disturbed ==> r.disturbed)
  {
    var l := s.local[c];
    SetLocal(s, c, Swapping(l.seen, s.inactive - {c}, true, l.repeat))
  }

  // rcu.c:95; a failed swap goes round again and keeps do_cleanup
  ghost function DoSwap(s: State, c: Cpu): (r: State)
    requires Wf(s) && Enabled(s, Swap(c))
    ensures Wf(r) && r.cpus == s.cpus && r.ahead == s.ahead && (s.disturbed ==> r.disturbed)
  {
    var l := s.local[c];
    if s.genMask == l.seen then
      SetLocal(Quiesce(SetMask(s, c, l.next), c), c,
               if l.claim then Locking(l.next, l.repeat) else Outside)
    else
      SetLocal(s, c, Loading(l.claim, l.repeat))
  }

  // rcu.c:98-108
  ghost function DoTake(s: State, c: Cpu): (r: State)
    requires Wf(s) && Enabled(s, Take(c))
    ensures Wf(r) && r.cpus == s.cpus && r.ahead == s.ahead && (s.disturbed ==> r.disturbed)
  {
    var l := s.local[c];
    SetLocal(s, c, Draining(l.next, s.slots[s.gen % NUM_GEN], l.repeat))
    .(slots := s.slots[s.gen % NUM_GEN := []], gen := s.gen + 1)
  }

  // rcu.c:110-116
  ghost function DoCollect(s: State, c: Cpu): (r: State)
    requires Wf(s) && Enabled(s, Collect(c))
    ensures Wf(r) && r.cpus == s.cpus && r.ahead == s.ahead && (s.disturbed ==> r.disturbed)
  {
    var l := s.local[c];
    SetLocal(s, c, l.(list := l.list[1..])).(collected := s.collected + [l.list[0]])
  }

  // rcu.c:118-130
  ghost function DoRepeat(s: State, c: Cpu): (r: State)
    requires Wf(s) && Enabled(s, Repeat(c))
    ensures Wf(r) && r.cpus == s.cpus && r.ahead == s.ahead && (s.disturbed ==> r.disturbed)
  {
    var l := s.local[c];
    var repeat := l.repeat + 1;
    SetLocal(s, c,
             if repeat < NUM_GEN && s.genMask + {c} == s.cpus then Loading(false, repeat)
             else if c in s.inactive then Rejoining(l.next, repeat)
             else Outside)
  }

  // rcu.c:132
  ghost function DoRejoin(s: State, c: Cpu): (r: State)
    requires Wf(s) && Enabled(s, Rejoin(c))
    ensures Wf(r) && r.cpus == s.cpus && r.ahead == s.ahead && (s.disturbed ==> r.disturbed)
  {
    var l := s.local[c];
    SetLocal(Quiesce(SetMask(s, c, s.genMask + {c}), c), c, Rechecking(l.next, l.repeat))
  }

  // rcu.c:135-137
  ghost function DoRecheck(s: State, c: Cpu): (r: State)
    requires Wf(s) && Enabled(s, Recheck(c))
    ensures Wf(r) && r.cpus == s.cpus && r.ahead == s.ahead && (s.disturbed ==> r.disturbed)
  {
    var l := s.local[c];
    SetLocal(s, c,
             if s.genMask == s.cpus && l.next + {c} != s.cpus then Loading(false, l.repeat)
             else Outside)
  }

  // rcu.c:44-46
  ghost function DoPauseEnter(s: State, c: Cpu): (r: State)
    requires Wf(s) && Enabled(s, PauseEnter(c))
    ensures Wf(r) && r.cpus == s.cpus && r.ahead == s.ahead && (s.disturbed ==> r.disturbed)
  {
    Quiesce(s, c).(mode := s.mode[c := Paused(s.mode[c].start, false)], inactive := s.inactive + {c})
  }

  // rcu.c:150-159
  ghost function DoDefer(s: State, id: nat): (r: State)
    requires Wf(s)
    ensures Wf(r) && r.cpus == s.cpus && r.ahead == s.ahead && (s.disturbed ==> r.disturbed)
  {
    var n := Node(id, s.gen, s.now, s.cpus - s.inactive);
    var k := (s.gen + s.ahead) % NUM_GEN;
    s.(slots := s.slots[k := s.slots[k] + [n]], deferred := s.deferred + [n], now := s.now + 1)
  }

  ghost function Step(s: State, a: Action): (r: State)
    requires Wf(s) && Enabled(s, a)
    ensures Wf(r) && r.cpus == s.cpus && r.ahead == s.ahead && (s.disturbed ==> r.disturbed)
  {
    match a
    case Enter(c) => DoEnter(s, c)
    case Load(c) => DoLoad(s, c)
    case Inspect(c) => DoInspect(s, c)
    case Swap(c) => DoSwap(s, c)
    case Take(c) => DoTake(s, c)
    case Collect(c) => DoCollect(s, c)
    case Repeat(c) => DoRepeat(s, c)
    case Rejoin(c) => DoRejoin(s, c)
    case Recheck(c) => DoRecheck(s, c)
    case PauseStart(c) => s.(mode := s.mode[c := Starting(s.gen)])
    case PauseEnter(c) => DoPauseEnter(s, c)
    case PauseLeave(c) => s.(mode := s.mode[c := Running], inactive := s.inactive - {c})
    case Defer(_, id) => DoDefer(s, id)
  }

  /** The actions can be taken one after the other from s. */
  ghost predicate Runs(s: State, acts: seq<Action>)
    requires Wf(s)
    decreases |acts|, 0
  {
    acts == [] ||
    (var front := acts[..|acts| - 1];
     Runs(s, front) && Enabled(After(s, front), acts[|acts| - 1]))
  }

  /** The state after the actions. */
  ghost function After(s: State, acts: seq<Action>): (r: State)
    requires Wf(s) && Runs(s, acts)
    ensures Wf(r) && r.cpus == s.cpus && r.ahead == s.ahead && (s.disturbed ==> r.disturbed)
    decreases |acts|, 1
  {
    if acts == [] then s else Step(After(s, acts[..|acts| - 1]), acts[|acts| - 1])
  }

  // ---------------------------------------------------------------------------------------------
  // The invariant

  /** If CPU c was active when n was deferred, it has passed a quiescent point since. */
  ghost predicate Passed(q: map<Cpu, nat>, c: Cpu, n: Node) {
    c in n.active ==> c in q && q[c] > n.at
  }

  ghost predicate AllPassed(q: map<Cpu, nat>, who: set<Cpu>, n: Node) {
    forall c :: c in who ==> Passed(q, c, n)
  }

  ghost predicate ListPassed(q: map<Cpu, nat>, who: set<Cpu>, list: seq<Node>) {
    forall n :: n in list ==> AllPassed(q, who, n)
  }

  /** Between claiming a generation and finishing its collectors. */
  ghost predicate Cleaning(s: State, c: Cpu)
    requires Wf(s)
  {
    c in s.cpus && (s.local[c].Locking? || s.local[c].Draining?)
  }

  ghost predicate Claimed(s: State)
    requires Wf(s)
  {
    exists c :: c in s.cpus && s.local[c].Locking?
  }

  /** A cleaner keeps its own bit out of gen_mask, and a CPU that intends to claim still sees the
      mask it read. */
  ghost predicate MaskInv(s: State)
    requires Wf(s)
  {
    && (forall c :: Cleaning(s, c) ==> c !in s.genMask)
    && (forall c, d :: Cleaning(s, c) && Cleaning(s, d) ==> c == d)
    && (forall c :: c in s.cpus ==> LocalInv(s, c, s.local[c]))
  }

  ghost predicate LocalInv(s: State, c: Cpu, l: Local) {
    match l
    case Loading(claim, _) => !claim
    case Inspecting(seen, _) => seen + {c} == s.cpus && seen == s.genMask
    case Swapping(seen, next, claim, _) =>
      && next <= s.cpus
      && if claim then seen + {c} == s.cpus && seen == s.genMask && c !in next
         else seen + {c} != s.cpus && next == seen + {c}
    case _ => true
  }

  ghost function Slot(s: State, k: nat): seq<Node>
    requires |s.slots| == NUM_GEN
  {
    s.slots[(s.gen + k) % NUM_GEN]
  }

  /** Everything on the list was deferred two generations before g, and before the present. */
  ghost predicate DeferredFor(g: nat, now: nat, list: seq<Node>) {
    forall n :: n in list ==> n.gen + 2 == g && n.at < now
  }

  /** Slot gen + k holds what was deferred k generations short of the look-ahead. */
  ghost predicate SlotInv(s: State)
    requires Wf(s)
  {
    && s.ahead == 2
    && DeferredFor(s.gen, s.now, Slot(s, 0))
    && DeferredFor(s.gen + 1, s.now, Slot(s, 1))
    && DeferredFor(s.gen + 2, s.now, Slot(s, 2))
    && Slot(s, 3) == []
  }

  /** Collected, being collected, then the three slots in order: that is the order of deferral. */
  ghost predicate OrderInv(s: State)
    requires Wf(s)
  {
    var pending := Slot(s, 0) + Slot(s, 1) + Slot(s, 2);
    && (forall c :: c in s.cpus && s.local[c].Draining? ==>
                      s.deferred == s.collected + s.local[c].list + pending)
    && ((forall c :: c in s.cpus ==> !s.local[c].Draining?) ==>
          s.deferred == s.collected + pending)
  }

  /** A paused CPU has passed everything waiting; the clock is ahead of every quiescent point. */
  ghost predicate IdleInv(s: State)
    requires Wf(s)
  {
    && (forall c :: c in s.cpus ==> s.lastQ[c] < s.now)
    && (forall k :: 0 <= k < NUM_GEN ==> ListPassed(s.lastQ, s.inactive, s.slots[k]))
  }

  /** Whoever has its bit in the mask has passed the list due next; once that list is claimed,
      everyone has, and the mask is already that of the following list. */
  ghost predicate DueInv(s: State)
    requires Wf(s)
  {
    && ListPassed(s.lastQ, if Claimed(s) then s.cpus else s.genMask, Slot(s, 0))
    && (Claimed(s) ==> ListPassed(s.lastQ, s.genMask, Slot(s, 1)))
  }

  /** The mask a CPU is about to install names only CPUs that passed the two oldest lists. */
  ghost predicate NextInv(s: State)
    requires Wf(s)
  {
    forall d :: d in s.cpus && s.local[d].Swapping? && s.local[d].claim ==>
                  ListPassed(s.lastQ, s.local[d].next, Slot(s, 0)) && ListPassed(s.lastQ, s.local[d].next, Slot(s, 1))
  }

  /** Nothing is collected, or taken to be collected, before everyone has passed it. */
  ghost predicate DoneInv(s: State)
    requires Wf(s)
  {
    && (forall d :: d in s.cpus && s.local[d].Draining? ==> ListPassed(s.lastQ, s.cpus, s.local[d].list))
    && ListPassed(s.lastQ, s.cpus, s.collected)
  }

  ghost predicate GraceInv(s: State)
    requires Wf(s)
  {
    IdleInv(s) && DueInv(s) && NextInv(s) && DoneInv(s)
  }

  ghost predicate Inv(s: State) {
    Wf(s) && MaskInv(s) && SlotInv(s) && OrderInv(s) && GraceInv(s)
  }

  lemma InitInv(cpus: set<Cpu>)
    ensures Inv(Init(cpus, 2))
  {
  }

  // ---------------------------------------------------------------------------------------------
  // Every step keeps the invariant

  /** A quiescent point is never undone. */
  lemma PassedKept(s: State, c: Cpu, who: set<Cpu>, list: seq<Node>)
    requires Wf(s) && IdleInv(s) && c in s.cpus && ListPassed(s.lastQ, who, list)
    ensures ListPassed(Quiesce(s, c).lastQ, who, list)
  {
  }

  /** A quiescent point of c passes everything waiting, as far as c is concerned. */
  lemma PassesAll(s: State, c: Cpu, who: set<Cpu>, list: seq<Node>)
    requires Wf(s) && IdleInv(s) && c in s.cpus
    requires ListPassed(s.lastQ, who, list) && forall n :: n in list ==> n.at < s.now
    ensures ListPassed(Quiesce(s, c).lastQ, who + {c}, list)
  {
  }

  /** Every list is one of the four numbered from the current generation. */
  lemma SlotOf(s: State, k: nat) returns (j: nat)
    requires |s.slots| == NUM_GEN && k < NUM_GEN
    ensures j < NUM_GEN && Slot(s, j) == s.slots[k]
  {
    j := (k + NUM_GEN - s.gen % NUM_GEN) % NUM_GEN;
  }

  /** What a quiescent point of c, a waiting CPU, leaves standing; the mask may gain c's bit. */
  lemma QuiesceKeeps(s: State, c: Cpu, r: State)
    requires Inv(s) && c in s.cpus
    requires r == Quiesce(s, c) || r == Quiesce(s, c).(genMask := s.genMask + {c})
    ensures GraceInv(r)
  {
    forall k | 0 <= k < NUM_GEN
      ensures ListPassed(r.lastQ, r.inactive, r.slots[k])
    {
      PassedKept(s, c, s.inactive, s.slots[k]);
    }
    QuiesceDue(s, c, r);
    forall d | d in s.cpus && s.local[d].Swapping? && s.local[d].claim
      ensures ListPassed(r.lastQ, r.local[d].next, Slot(r, 0)) && ListPassed(r.lastQ, r.local[d].next, Slot(r, 1))
    {
      PassedKept(s, c, s.local[d].next, Slot(s, 0));
      PassedKept(s, c, s.local[d].next, Slot(s, 1));
    }
    forall d | d in s.cpus && s.local[d].Draining?
      ensures ListPassed(r.lastQ, r.cpus, r.local[d].list)
    {
      PassedKept(s, c, s.cpus, s.local[d].list);
    }
    PassedKept(s, c, s.cpus, s.collected);
  }

  lemma QuiesceDue(s: State, c: Cpu, r: State)
    requires Inv(s) && c in s.cpus
    requires r == Quiesce(s, c) || r == Quiesce(s, c).(genMask := s.genMask + {c})
    ensures DueInv(r)
  {
    assert Claimed(s) == Claimed(r);
    if Claimed(s) {
      PassedKept(s, c, s.cpus, Slot(s, 0));
      PassedKept(s, c, s.genMask, Slot(s, 1));
      PassesAll(s, c, s.genMask, Slot(s, 1));
    } else {
      PassedKept(s, c, s.genMask, Slot(s, 0));
      PassesAll(s, c, s.genMask, Slot(s, 0));
    }
  }

  /** CPU c only moves between control states, and not into or out of a claimed generation. */
  ghost predicate Moves(s: State, c: Cpu, l: Local)
    requires Wf(s)
  {
    && c in s.cpus && LocalInv(s, c, l)
    && !s.local[c].Locking? && !l.Locking? && !l.Draining?
    && (s.local[c].Draining? ==> s.local[c].list == [])
    && (l.Swapping? && l.claim ==> l.next <= s.inactive)
  }

  lemma MoveMask(s: State, c: Cpu, l: Local)
    requires Wf(s) && MaskInv(s) && Moves(s, c, l)
    ensures MaskInv(SetLocal(s, c, l))
    ensures Claimed(SetLocal(s, c, l)) == Claimed(s)
  {
    var r := SetLocal(s, c, l);
    assert forall d :: Cleaning(r, d) ==> Cleaning(s, d);
    if Claimed(s) {
      var d :| d in s.cpus && s.local[d].Locking?;
      assert r.local[d].Locking?;
    }
  }

  lemma MoveOrder(s: State, c: Cpu, l: Local)
    requires Wf(s) && MaskInv(s) && OrderInv(s) && Moves(s, c, l)
    ensures OrderInv(SetLocal(s, c, l))
  {
    var r := SetLocal(s, c, l);
    if s.local[c].Draining? {
      assert Cleaning(s, c);
      assert forall d :: d in s.cpus && d != c && s.local[d].Draining? ==> Cleaning(s, d);
      assert s.collected + s.local[c].list == s.collected;
    } else {
      assert forall d :: d in s.cpus ==> r.local[d].Draining? == s.local[d].Draining?;
    }
  }

  lemma MoveNext(s: State, c: Cpu, l: Local)
    requires Wf(s) && IdleInv(s) && NextInv(s) && Moves(s, c, l)
    ensures NextInv(SetLocal(s, c, l))
  {
    if l.Swapping? && l.claim {
      forall k | 0 <= k < NUM_GEN
        ensures ListPassed(s.lastQ, l.next, s.slots[k])
      {
        forall n | n in s.slots[k]
          ensures AllPassed(s.lastQ, l.next, n)
        {
          assert AllPassed(s.lastQ, s.inactive, n);
        }
      }
    }
  }

  lemma MoveKeeps(s: State, c: Cpu, l: Local)
    requires Inv(s) && Moves(s, c, l)
    ensures Inv(SetLocal(s, c, l))
  {
    MoveMask(s, c, l);
    MoveOrder(s, c, l);
    MoveNext(s, c, l);
  }

  /** Nobody else is watching, so the mask may change. */
  lemma MaskChange(s: State, c: Cpu, mask: set<Cpu>)
    requires Wf(s) && MaskInv(s) && !Disturbs(s, c, mask)
    requires c in s.cpus && (s.local[c].Outside? || s.local[c].Rechecking? || s.local[c].Locking?)
    requires mask <= s.cpus && forall d :: Cleaning(s, d) ==> d !in mask
    ensures MaskInv(s.(genMask := mask))
  {
    var r := s.(genMask := mask);
    forall d | d in s.cpus
      ensures LocalInv(r, d, r.local[d])
    {
      assert LocalInv(s, d, s.local[d]);
      if mask != s.genMask && d != c {
        assert !Watching(s, d);
      }
    }
    assert forall d :: Cleaning(r, d) ==> Cleaning(s, d);
  }

  ghost function Raised(s: State, c: Cpu, l: Local): State {
    SetLocal(Quiesce(s.(genMask := s.genMask + {c}), c), c, l)
  }

  lemma RaiseMask(s: State, c: Cpu, l: Local)
    requires Wf(s) && MaskInv(s) && c in s.cpus && !Cleaning(s, c) && (l.Outside? || l.Rechecking?)
    requires !Disturbs(s, c, s.genMask + {c})
    ensures MaskInv(Raised(s, c, l))
  {
    var m := SetLocal(s, c, l);
    MoveMask(s, c, l);
    MaskChangeAllowed(s, c, l);
    hide MaskInv, Disturbs;
    MaskChange(m, c, m.genMask + {c});
    MaskFrame(m.(genMask := m.genMask + {c}), Raised(s, c, l));
  }

  lemma MaskChangeAllowed(s: State, c: Cpu, l: Local)
    requires Wf(s) && MaskInv(s) && c in s.cpus && !Cleaning(s, c) && (l.Outside? || l.Rechecking?)
    requires !Disturbs(s, c, s.genMask + {c})
    ensures var m := SetLocal(s, c, l);
            && !Disturbs(m, c, s.genMask + {c})
            && forall d :: Cleaning(m, d) ==> d !in s.genMask + {c}
  {
  }

  lemma RaiseGrace(s: State, c: Cpu, l: Local)
    requires Inv(s) && c in s.cpus && !Cleaning(s, c) && (l.Outside? || l.Rechecking?)
    ensures Wf(Raised(s, c, l)) && GraceInv(Raised(s, c, l))
  {
    hide MaskInv, OrderInv, SlotInv, GraceInv;
    MoveKeeps(s, c, l);
    QuiesceKeeps(SetLocal(s, c, l), c, Raised(s, c, l));
  }

  /** CPU c, which is not cleaning, adds its bit to the mask and passes a quiescent point. */
  lemma RaiseKeeps(s: State, c: Cpu, l: Local)
    requires Inv(s) && c in s.cpus && !Cleaning(s, c) && (l.Outside? || l.Rechecking?)
    requires !Disturbs(s, c, s.genMask + {c})
    ensures Inv(Raised(s, c, l))
  {
    hide MaskInv, OrderInv, SlotInv, GraceInv;
    RaiseMask(s, c, l);
    RaiseGrace(s, c, l);
    MoveOrder(s, c, l);
    OrderFrame(SetLocal(s, c, l), Raised(s, c, l));
    SlotFrame(s, Raised(s, c, l));
  }

  lemma MaskFrame(s: State, r: State)
    requires Wf(s) && Wf(r) && MaskInv(s)
    requires r.cpus == s.cpus && r.genMask == s.genMask && r.local == s.local
    ensures MaskInv(r)
  {
    assert forall d :: Cleaning(r, d) ==> Cleaning(s, d);
    assert forall d :: d in s.cpus && LocalInv(s, d, s.local[d]) ==> LocalInv(r, d, r.local[d]);
  }

  lemma SlotFrame(s: State, r: State)
    requires Wf(s) && Wf(r) && SlotInv(s)
    requires r.ahead == s.ahead && r.gen == s.gen && r.slots == s.slots && r.now >= s.now
    ensures SlotInv(r)
  {
  }

  lemma GraceFrame(s: State, r: State)
    requires Wf(s) && Wf(r) && GraceInv(s)
    requires r.cpus == s.cpus && r.genMask == s.genMask && r.inactive <= s.inactive && r.gen == s.gen
    requires r.slots == s.slots && r.local == s.local && r.lastQ == s.lastQ && r.collected == s.collected
    requires r.now >= s.now
    ensures GraceInv(r)
  {
    assert Claimed(r) == Claimed(s);
    forall k | 0 <= k < NUM_GEN
      ensures ListPassed(r.lastQ, r.inactive, r.slots[k])
    {
      assert ListPassed(s.lastQ, s.inactive, s.slots[k]);
      assert forall n :: n in s.slots[k] ==> AllPassed(s.lastQ, s.inactive, n);
    }
  }

  lemma OrderFrame(s: State, r: State)
    requires Wf(s) && Wf(r) && OrderInv(s)
    requires r.cpus == s.cpus && r.gen == s.gen && r.slots == s.slots
    requires forall d :: d in s.cpus ==> r.local[d] == s.local[d] || (!r.local[d].Draining? && !s.local[d].Draining?)
    requires r.deferred == s.deferred && r.collected == s.collected
    ensures OrderInv(r)
  {
  }

  /** While some CPU watches a complete mask there is no other cleaner: its bit would be missing. */
  lemma WatcherExcludesCleaners(s: State, c: Cpu)
    requires Wf(s) && MaskInv(s) && c in s.cpus
    requires s.local[c].Inspecting? || (s.local[c].Swapping? && s.local[c].claim)
    ensures forall d :: !Cleaning(s, d)
  {
  }

  lemma ClaimMask(s: State, c: Cpu)
    requires Wf(s) && MaskInv(s) && Enabled(s, Swap(c)) && s.local[c].claim && !DoSwap(s, c).disturbed
    ensures MaskInv(DoSwap(s, c))
  {
    var r := DoSwap(s, c);
    assert LocalInv(s, c, s.local[c]);
    WatcherExcludesCleaners(s, c);
    assert forall d :: Cleaning(r, d) ==> d == c;
    forall d | d in s.cpus && d != c
      ensures LocalInv(r, d, r.local[d])
    {
      assert LocalInv(s, d, s.local[d]);
      if r.genMask != s.genMask {
        assert !Watching(s, d);
      }
    }
  }

  /** What a claim leaves of the list due next, and of the one after it. */
  lemma ClaimDue(s: State, c: Cpu)
    requires Inv(s) && Enabled(s, Swap(c)) && s.local[c].claim
    ensures var q := Quiesce(s, c).lastQ;
            && s.genMask == s.local[c].seen
            && ListPassed(q, s.cpus, Slot(s, 0)) && ListPassed(q, s.local[c].next, Slot(s, 1))
  {
    assert LocalInv(s, c, s.local[c]);
    WatcherExcludesCleaners(s, c);
    assert !Claimed(s) by {
      assert forall d :: d in s.cpus && s.local[d].Locking? ==> Cleaning(s, d);
    }
    PassesAll(s, c, s.genMask, Slot(s, 0));
    PassedKept(s, c, s.local[c].next, Slot(s, 1));
  }

  lemma ClaimGrace(s: State, c: Cpu)
    requires Inv(s) && Enabled(s, Swap(c)) && s.local[c].claim
    ensures GraceInv(DoSwap(s, c))
  {
    hide Disturbs, DeferredFor, ListPassed;
    hide MaskInv, OrderInv, SlotInv;
    var q, r := Quiesce(s, c), DoSwap(s, c);
    ClaimDue(s, c);
    QuiesceKeeps(s, c, q);
    assert r.local[c].Locking?;
    assert Slot(r, 0) == Slot(s, 0) && Slot(r, 1) == Slot(s, 1);
    assert forall d :: d in s.cpus && d != c ==> r.local[d] == q.local[d];
    assert DueInv(r) && IdleInv(r);
  }

  /** A successful claim: the mask was complete, so everyone has passed the list due. */
  lemma ClaimKeeps(s: State, c: Cpu)
    requires Inv(s) && Enabled(s, Swap(c)) && s.local[c].claim && !DoSwap(s, c).disturbed
    ensures Inv(DoSwap(s, c))
  {
    hide MaskInv, OrderInv, SlotInv, GraceInv;
    ClaimMask(s, c);
    ClaimGrace(s, c);
    ClaimOrder(s, c);
  }

  lemma ClaimOrder(s: State, c: Cpu)
    requires Wf(s) && OrderInv(s) && SlotInv(s) && Enabled(s, Swap(c)) && s.local[c].claim
    ensures OrderInv(DoSwap(s, c)) && SlotInv(DoSwap(s, c))
  {
    hide OrderInv, SlotInv, Disturbs;
    OrderFrame(s, DoSwap(s, c));
    SlotFrame(s, DoSwap(s, c));
  }

  lemma SwapKeeps(s: State, c: Cpu)
    requires Inv(s) && Enabled(s, Swap(c)) && !DoSwap(s, c).disturbed
    ensures Inv(DoSwap(s, c))
  {
    assert LocalInv(s, c, s.local[c]);
    if s.local[c].claim {
      ClaimKeeps(s, c);
    } else if s.genMask == s.local[c].seen {
      RaiseKeeps(s, c, Outside);
    } else {
      MoveKeeps(s, c, Loading(false, s.local[c].repeat));
    }
  }

  lemma TakeMask(s: State, c: Cpu)
    requires Wf(s) && MaskInv(s) && Enabled(s, Take(c))
    ensures MaskInv(DoTake(s, c)) && Claimed(s) && !Claimed(DoTake(s, c))
    ensures forall d :: d in s.cpus ==> !s.local[d].Draining?
  {
    var r := DoTake(s, c);
    assert Cleaning(s, c);
    assert forall d :: Cleaning(r, d) ==> Cleaning(s, d);
    assert forall d :: d in s.cpus && r.local[d].Locking? ==> Cleaning(s, d);
    assert forall d :: d in s.cpus && s.local[d].Draining? ==> Cleaning(s, d);
    assert forall d :: d in s.cpus && LocalInv(s, d, s.local[d]) ==> LocalInv(r, d, r.local[d]);
  }

  lemma TakeSlots(s: State, c: Cpu)
    requires Wf(s) && SlotInv(s) && Enabled(s, Take(c))
    ensures var r := DoTake(s, c);
            && SlotInv(r)
            && Slot(r, 0) == Slot(s, 1) && Slot(r, 1) == Slot(s, 2) && Slot(r, 2) == []
  {
    var r := DoTake(s, c);
    assert Slot(r, 0) == Slot(s, 1) && Slot(r, 1) == Slot(s, 2) && Slot(r, 2) == Slot(s, 3) && Slot(r, 3) == [];
  }

  lemma TakeKeeps(s: State, c: Cpu)
    requires Inv(s) && Enabled(s, Take(c))
    ensures Inv(DoTake(s, c))
  {
    var r := DoTake(s, c);
    TakeMask(s, c);
    TakeSlots(s, c);
    assert Cleaning(s, c);
    assert NextInv(r) by {
      assert forall d :: d in s.cpus && s.local[d].Swapping? && s.local[d].claim ==> LocalInv(s, d, s.local[d]);
    }
    assert r.local[c].Draining? && r.local[c].list == Slot(s, 0);
    assert s.collected + (Slot(s, 0) + Slot(s, 1) + Slot(s, 2))
           == s.collected + Slot(s, 0) + (Slot(s, 1) + Slot(s, 2) + []);
  }

  lemma CollectKeeps(s: State, c: Cpu)
    requires Inv(s) && Enabled(s, Collect(c))
    ensures Inv(DoCollect(s, c))
  {
    hide MaskInv, OrderInv, DoneInv, ListPassed, DeferredFor;
    CollectMask(s, c);
    CollectOrder(s, c);
    CollectDone(s, c);
  }

  lemma CollectOrder(s: State, c: Cpu)
    requires Wf(s) && MaskInv(s) && OrderInv(s) && Enabled(s, Collect(c))
    ensures OrderInv(DoCollect(s, c))
  {
    var r := DoCollect(s, c);
    var list := s.local[c].list;
    assert Cleaning(s, c);
    assert forall d :: d in s.cpus && s.local[d].Draining? ==> Cleaning(s, d);
    assert r.local[c].Draining?;
    assert s.collected + list == r.collected + list[1..];
  }

  lemma CollectDone(s: State, c: Cpu)
    requires Wf(s) && DoneInv(s) && Enabled(s, Collect(c))
    ensures DoneInv(DoCollect(s, c))
  {
  }

  lemma CollectMask(s: State, c: Cpu)
    requires Wf(s) && MaskInv(s) && Enabled(s, Collect(c))
    ensures MaskInv(DoCollect(s, c)) && Claimed(DoCollect(s, c)) == Claimed(s)
  {
    var r := DoCollect(s, c);
    assert forall d :: Cleaning(r, d) ==> Cleaning(s, d);
    assert forall d :: d in s.cpus ==> s.local[d].Locking? == r.local[d].Locking?;
    assert forall d :: d in s.cpus && LocalInv(s, d, s.local[d]) ==> LocalInv(r, d, r.local[d]);
  }

  /** Entering or leaving a pause, or reading gen_count before one, touches no control state. */
  lemma ModeKeeps(s: State, a: Action)
    requires Inv(s) && Enabled(s, a) && (a.PauseStart? || a.PauseLeave?)
    ensures Inv(Step(s, a))
  {
    hide MaskInv, OrderInv, SlotInv, GraceInv;
    var r := Step(s, a);
    MaskFrame(s, r);
    OrderFrame(s, r);
    SlotFrame(s, r);
    GraceFrame(s, r);
  }

  lemma PauseEnterKeeps(s: State, c: Cpu)
    requires Inv(s) && Enabled(s, PauseEnter(c))
    ensures Inv(DoPauseEnter(s, c))
  {
    hide MaskInv, OrderInv, SlotInv, IdleInv, ListPassed;
    var q, r := Quiesce(s, c), DoPauseEnter(s, c);
    MaskFrame(s, r);
    OrderFrame(s, r);
    SlotFrame(s, r);
    QuiesceKeeps(s, c, q);
    PauseIdle(s, c);
    assert Claimed(r) == Claimed(q);
  }

  lemma PauseIdle(s: State, c: Cpu)
    requires Wf(s) && SlotInv(s) && IdleInv(s) && Enabled(s, PauseEnter(c))
    ensures IdleInv(DoPauseEnter(s, c))
  {
    var r := DoPauseEnter(s, c);
    forall k | 0 <= k < NUM_GEN
      ensures ListPassed(r.lastQ, r.inactive, r.slots[k])
    {
      var j := SlotOf(s, k);
      PassesAll(s, c, s.inactive, s.slots[k]);
    }
  }

  lemma DeferSlots(s: State, id: nat)
    requires Wf(s) && SlotInv(s)
    ensures var r := DoDefer(s, id);
            var n := Node(id, s.gen, s.now, s.cpus - s.inactive);
            && SlotInv(r)
            && Slot(r, 0) == Slot(s, 0) && Slot(r, 1) == Slot(s, 1) && Slot(r, 2) == Slot(s, 2) + [n]
  {
  }

  lemma DeferKeeps(s: State, id: nat)
    requires Inv(s)
    ensures Inv(DoDefer(s, id))
  {
    var r := DoDefer(s, id);
    var n := Node(id, s.gen, s.now, s.cpus - s.inactive);
    DeferSlots(s, id);
    MaskFrame(s, r);
    assert Claimed(r) == Claimed(s);
    assert OrderInv(r) by {
      assert Slot(s, 0) + Slot(s, 1) + Slot(s, 2) + [n] == Slot(r, 0) + Slot(r, 1) + Slot(r, 2);
    }
    assert IdleInv(r) by {
      assert AllPassed(r.lastQ, r.inactive, n);
    }
  }

  /** The steps that only move a CPU between control states. */
  lemma ControlKeeps(s: State, a: Action)
    requires Inv(s) && Enabled(s, a)
    requires a.Load? || a.Inspect? || a.Repeat? || a.Recheck?
    ensures Inv(Step(s, a))
  {
    hide OrderInv, SlotInv, GraceInv;
    var c := a.c;
    assert LocalInv(s, c, s.local[c]);
    match a
    case Load(_) => MoveKeeps(s, c, DoLoad(s, c).local[c]);
    case Inspect(_) => MoveKeeps(s, c, DoInspect(s, c).local[c]);
    case Repeat(_) => MoveKeeps(s, c, DoRepeat(s, c).local[c]);
    case Recheck(_) => MoveKeeps(s, c, DoRecheck(s, c).local[c]);
  }

  lemma EnterKeeps(s: State, c: Cpu)
    requires Inv(s) && Enabled(s, Enter(c))
    ensures Inv(DoEnter(s, c))
  {
    hide MaskInv, OrderInv, SlotInv, GraceInv;
    var m, r := SetLocal(s, c, Loading(false, 0)), DoEnter(s, c);
    MoveKeeps(s, c, Loading(false, 0));
    MaskFrame(m, r);
    OrderFrame(m, r);
    SlotFrame(m, r);
    GraceFrame(m, r);
  }

  lemma StepKeeps(s: State, a: Action)
    requires Inv(s) && Enabled(s, a) && !Step(s, a).disturbed
    ensures Inv(Step(s, a))
  {
    hide OrderInv, SlotInv, GraceInv;
    match a
    case Enter(c) => EnterKeeps(s, c);
    case Load(_) => ControlKeeps(s, a);
    case Inspect(_) => ControlKeeps(s, a);
    case Swap(c) => SwapKeeps(s, c);
    case Take(c) => TakeKeeps(s, c);
    case Collect(c) => CollectKeeps(s, c);
    case Repeat(_) => ControlKeeps(s, a);
    case Rejoin(c) => RaiseKeeps(s, c, DoRejoin(s, c).local[c]);
    case Recheck(_) => ControlKeeps(s, a);
    case PauseStart(_) => ModeKeeps(s, a);
    case PauseEnter(c) => PauseEnterKeeps(s, c);
    case PauseLeave(_) => ModeKeeps(s, a);
    case Defer(_, id) => DeferKeeps(s, id);
  }

  lemma {:induction false} RunKeeps(s: State, acts: seq<Action>)
    requires Inv(s) && Runs(s, acts) && !After(s, acts).disturbed
    ensures Inv(After(s, acts))
    decreases |acts|
  {
    if acts != [] {
      var front := acts[..|acts| - 1];
      RunKeeps(s, front);
      StepKeeps(After(s, front), acts[|acts| - 1]);
    }
  }
}
