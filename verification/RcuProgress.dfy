/** What the generation protocol gets done: how long a CPU keeps cleaning, that a round of checks
    moves the generation on, and what a pause waits for. */
module RcuProgress {
  import opened Rcu
  import opened RcuItems
  import opened RcuRuns
  import opened RcuLimits

  // ---------------------------------------------------------------------------------------------
  // One call of rcu_check

  /** Action i is the entry of c into rcu_check, and c has not left before moment j. */
  ghost predicate InCall(s: State, acts: seq<Action>, c: Cpu, i: nat, j: nat)
    requires Wf(s) && Runs(s, acts)
  {
    && i < j <= |acts| && c in s.cpus && acts[i] == Enter(c)
    && forall k :: i < k < j ==> Inside(s, acts, c, k)
  }

  ghost predicate Inside(s: State, acts: seq<Action>, c: Cpu, k: nat)
    requires Wf(s) && Runs(s, acts) && k <= |acts| && c in s.cpus
  {
    !StandsAt(s, acts, c, k).Outside?
  }

  /** Where c stands before action k. */
  ghost function StandsAt(s: State, acts: seq<Action>, c: Cpu, k: nat): Local
    requires Wf(s) && Runs(s, acts) && k <= |acts| && c in s.cpus
  {
    AtFacts(s, acts, k);
    At(s, acts, k).local[c]
  }

  /** The call that c enters by action i ends by moment j. */
  ghost predicate Call(s: State, acts: seq<Action>, c: Cpu, i: nat, j: nat)
    requires Wf(s) && Runs(s, acts)
  {
    InCall(s, acts, c, i, j) && !Inside(s, acts, c, j)
  }

  lemma AtFacts(s: State, acts: seq<Action>, k: nat)
    requires Wf(s) && Runs(s, acts) && k <= |acts|
    ensures var r := At(s, acts, k); Wf(r) && r.cpus == s.cpus && r.ahead == s.ahead
  {
    PrefixRuns(s, acts, k);
    hide Runs, After;
  }

  /** The state after action k is one step from the state before it. */
  lemma AtStep(s: State, acts: seq<Action>, k: nat)
    requires Wf(s) && Runs(s, acts) && k < |acts|
    ensures var r := At(s, acts, k);
            Wf(r) && r.cpus == s.cpus && Enabled(r, acts[k]) && At(s, acts, k + 1) == Step(r, acts[k])
  {
    hide Runs, After, Enabled, Step, Wf;
    AtFacts(s, acts, k);
    PrefixRuns(s, acts, k + 1);
    var front := acts[..k + 1];
    assert front[..|front| - 1] == acts[..k];
    LastStep(s, front);
  }

  lemma LastStep(s: State, acts: seq<Action>)
    requires Wf(s) && Runs(s, acts) && acts != []
    ensures var front := acts[..|acts| - 1];
            && Runs(s, front) && Enabled(After(s, front), acts[|acts| - 1])
            && After(s, acts) == Step(After(s, front), acts[|acts| - 1])
  {
    hide Enabled, Step, Wf;
  }

  /** The lists that c has taken by actions i up to j. */
  ghost function Takes(acts: seq<Action>, c: Cpu, i: nat, j: nat): nat
    requires i <= j <= |acts|
  {
    if i == j then 0 else Takes(acts, c, i, j - 1) + if acts[j - 1] == Take(c) then 1 else 0
  }

  /** Passes completed by c, as its local variable has it. */
  ghost function Counted(l: Local): nat {
    match l
    case Outside => 0
    case Draining(_, _, repeat) => repeat + 1
    case _ => l.repeat
  }

  /** Only its own actions move a CPU. */
  lemma OthersStay(s: State, a: Action, c: Cpu)
    requires Wf(s) && Enabled(s, a) && c in s.cpus && a.c != c
    ensures Step(s, a).local[c] == s.local[c]
  {
    hide Disturbs;
  }

  lemma OwnCount(s: State, a: Action)
    requires Wf(s) && Enabled(s, a)
    ensures var r := Step(s, a);
            !r.local[a.c].Outside? && !s.local[a.c].Outside? ==>
              Counted(r.local[a.c]) == Counted(s.local[a.c]) + if a.Take? then 1 else 0
    ensures a.Enter? ==> Step(s, a).local[a.c] == Loading(false, 0)
  {
    hide Disturbs;
  }

  /** The loop variable counts the lists taken. */
  lemma {:induction false} CountsTakes(s: State, acts: seq<Action>, c: Cpu, i: nat, j: nat)
    requires Wf(s) && Runs(s, acts) && InCall(s, acts, c, i, j) && Inside(s, acts, c, j)
    ensures Counted(StandsAt(s, acts, c, j)) == Takes(acts, c, i, j)
    decreases j
  {
    hide Runs, At, Enabled, Step, Counted, Wf;
    AtStep(s, acts, j - 1);
    var r, a := At(s, acts, j - 1), acts[j - 1];
    if j == i + 1 {
      OwnCount(r, a);
      EntryCount();
    } else {
      assert Inside(s, acts, c, j - 1);
      CountsTakes(s, acts, c, i, j - 1);
      if a.c == c {
        OwnCount(r, a);
      } else {
        OthersStay(r, a, c);
      }
    }
  }

  lemma EntryCount()
    ensures Counted(Loading(false, 0)) == 0
  {
  }

  // ---------------------------------------------------------------------------------------------
  // When a cleaner stops

  /** The two places where rcu_check looks whether the round is complete. */
  ghost predicate Reads(a: Action, c: Cpu) {
    a == Load(c) || a == Repeat(c)
  }

  /** Before action k someone other than c is missing from the mask. */
  ghost predicate Short(s: State, acts: seq<Action>, c: Cpu, k: nat)
    requires Wf(s) && Runs(s, acts) && k <= |acts|
  {
    At(s, acts, k).genMask + {c} != s.cpus
  }

  ghost predicate ReadsShort(s: State, acts: seq<Action>, c: Cpu, k: nat)
    requires Wf(s) && Runs(s, acts)
  {
    k < |acts| && Reads(acts[k], c) && Short(s, acts, c, k)
  }

  /** The last time c looked, after i and before j, the round was not complete. */
  ghost predicate LastReadShort(s: State, acts: seq<Action>, c: Cpu, i: nat, j: nat)
    requires Wf(s) && Runs(s, acts) && j <= |acts|
  {
    exists k: nat :: i < k < j && ReadsShort(s, acts, c, k) && forall m :: k < m < j ==> !Reads(acts[m], c)
  }

  lemma StillShort(s: State, acts: seq<Action>, c: Cpu, i: nat, j: nat)
    requires Wf(s) && Runs(s, acts) && i < j < |acts|
    ensures LastReadShort(s, acts, c, i, j) && !Reads(acts[j], c) ==> LastReadShort(s, acts, c, i, j + 1)
    ensures ReadsShort(s, acts, c, j) ==> LastReadShort(s, acts, c, i, j + 1)
  {
    hide ReadsShort, Reads;
    if LastReadShort(s, acts, c, i, j) && !Reads(acts[j], c) {
      var k: nat :| i < k < j && ReadsShort(s, acts, c, k) && forall m :: k < m < j ==> !Reads(acts[m], c);
      assert forall m :: k < m < j + 1 ==> !Reads(acts[m], c);
    }
  }

  /** Places that c reaches, with fewer than four lists taken, only after a look at an incomplete
      round. */
  ghost predicate Leaving(l: Local, taken: nat) {
    (l.Swapping? && !l.claim) || ((l.Rejoining? || l.Rechecking? || l.Outside?) && taken < NUM_GEN)
  }

  /** How an own step comes to such a place. */
  lemma OwnLeaves(s: State, a: Action, taken: nat)
    requires Wf(s) && Enabled(s, a) && !a.Enter? && !s.local[a.c].Outside? && taken == Counted(s.local[a.c])
    ensures Leaving(Step(s, a).local[a.c], if a.Take? then taken + 1 else taken) ==>
              if Reads(a, a.c) then s.genMask + {a.c} != s.cpus else Leaving(s.local[a.c], taken)
  {
    hide Disturbs;
  }

  lemma {:induction false} LeavesShort(s: State, acts: seq<Action>, c: Cpu, i: nat, j: nat)
    requires Wf(s) && Runs(s, acts) && InCall(s, acts, c, i, j)
    requires Leaving(StandsAt(s, acts, c, j), Takes(acts, c, i, j))
    ensures LastReadShort(s, acts, c, i, j)
    decreases j
  {
    hide Runs, At, Enabled, Step, Counted, Wf, Leaving, Reads, LastReadShort;
    AtStep(s, acts, j - 1);
    var r, a := At(s, acts, j - 1), acts[j - 1];
    if j == i + 1 {
      OwnCount(r, a);
      NotLeaving();
    } else {
      assert Inside(s, acts, c, j - 1);
      CountsTakes(s, acts, c, i, j - 1);
      StillShort(s, acts, c, i, j - 1);
      OwnReads(a, c);
      if a.c == c {
        EnterOutside(r, a);
        OwnLeaves(r, a, Takes(acts, c, i, j - 1));
      } else {
        OthersStay(r, a, c);
      }
      if !Reads(a, c) {
        LeavesShort(s, acts, c, i, j - 1);
      }
    }
  }

  lemma OwnReads(a: Action, c: Cpu)
    ensures Reads(a, c) ==> a.c == c && !a.Take?
    ensures a == Take(c) <==> a.c == c && a.Take?
  {
  }

  lemma EnterOutside(s: State, a: Action)
    requires Wf(s) && Enabled(s, a) && !s.local[a.c].Outside?
    ensures !a.Enter?
  {
  }

  lemma NotLeaving()
    ensures forall n: nat :: !Leaving(Loading(false, 0), n)
  {
  }

  /** A CPU leaves rcu_check only after taking four lists, or when the last time it looked the round
      was not complete. */
  lemma KeepsCleaning(s: State, acts: seq<Action>, c: Cpu, i: nat, j: nat)
    requires Wf(s) && Runs(s, acts) && Call(s, acts, c, i, j)
    ensures Takes(acts, c, i, j) >= NUM_GEN || LastReadShort(s, acts, c, i, j)
  {
    hide Runs, At, LastReadShort;
    if Takes(acts, c, i, j) < NUM_GEN {
      LeavesShort(s, acts, c, i, j);
    }
  }

  lemma RepeatOn(s: State, c: Cpu)
    requires Wf(s) && Enabled(s, Repeat(c))
    ensures var l := Step(s, Repeat(c)).local[c];
            && (l.Loading? <==> Counted(s.local[c]) < NUM_GEN && s.genMask + {c} == s.cpus)
            && (l.Loading? || l.Rejoining? || l.Outside?) && (l.Rejoining? ==> c in s.inactive)
  {
  }

  /** After its collectors c goes round again exactly when it has taken fewer than four lists and
      everyone else is in the mask; otherwise it is done, unless paused. */
  lemma GoesOnExactly(s: State, acts: seq<Action>, c: Cpu, i: nat, k: nat)
    requires Wf(s) && Runs(s, acts) && InCall(s, acts, c, i, k) && Inside(s, acts, c, k)
    requires k < |acts| && acts[k] == Repeat(c)
    ensures StandsAt(s, acts, c, k + 1).Loading? <==> Takes(acts, c, i, k) < NUM_GEN && !Short(s, acts, c, k)
    ensures StandsAt(s, acts, c, k + 1).Outside? || StandsAt(s, acts, c, k + 1).Loading? || c in At(s, acts, k).inactive
  {
    hide Runs, At, Enabled, Step, Counted, Wf;
    AtStep(s, acts, k);
    CountsTakes(s, acts, c, i, k);
    RepeatOn(At(s, acts, k), c);
  }

  /** A CPU that is not paused has taken at most four lists, and fewer while it can take another. */
  ghost predicate Bounded(l: Local) {
    match l
    case Outside => true
    case Draining(_, _, repeat) => repeat < NUM_GEN
    case Rejoining(_, _) => false
    case Rechecking(_, _) => false
    case _ => l.repeat < NUM_GEN
  }

  lemma OwnBounded(s: State, a: Action)
    requires Wf(s) && Enabled(s, a) && a.c !in s.inactive && Bounded(s.local[a.c])
    ensures Bounded(Step(s, a).local[a.c])
  {
    hide Disturbs;
  }

  lemma {:induction false} StaysBounded(s: State, acts: seq<Action>, c: Cpu, i: nat, j: nat)
    requires Wf(s) && Runs(s, acts) && InCall(s, acts, c, i, j) && forall k :: i <= k < j ==>
                         c !in At(s, acts, k).inactive
    ensures Bounded(StandsAt(s, acts, c, j))
    decreases j
  {
    hide Runs, At, Enabled, Step, Wf, Bounded;
    AtStep(s, acts, j - 1);
    var r, a := At(s, acts, j - 1), acts[j - 1];
    if j == i + 1 {
      OwnCount(r, a);
      EntryBounded();
    } else {
      assert Inside(s, acts, c, j - 1);
      StaysBounded(s, acts, c, i, j - 1);
      if a.c == c {
        OwnBounded(r, a);
      } else {
        OthersStay(r, a, c);
      }
    }
  }

  lemma EntryBounded()
    ensures Bounded(Loading(false, 0))
  {
  }

  lemma BoundedCount(l: Local)
    requires Bounded(l)
    ensures Counted(l) <= NUM_GEN
  {
  }

  /** The step that leaves rcu_check takes no list. */
  lemma LeavesWithoutTake(s: State, a: Action)
    requires Wf(s) && Enabled(s, a) && !s.local[a.c].Outside? && Step(s, a).local[a.c].Outside?
    ensures !a.Take?
  {
  }

  /** While it is not paused, a CPU takes at most four lists in one call. */
  lemma FourAtMost(s: State, acts: seq<Action>, c: Cpu, i: nat, j: nat)
    requires Wf(s) && Runs(s, acts) && Call(s, acts, c, i, j) && forall k :: i <= k < j ==>
                         c !in At(s, acts, k).inactive
    ensures Takes(acts, c, i, j) <= NUM_GEN
  {
    hide Runs, At, Enabled, Step, Wf, Bounded, Counted;
    AtStep(s, acts, j - 1);
    var r, a := At(s, acts, j - 1), acts[j - 1];
    if j > i + 1 {
      assert Inside(s, acts, c, j - 1);
      StaysBounded(s, acts, c, i, j - 1);
      CountsTakes(s, acts, c, i, j - 1);
      BoundedCount(StandsAt(s, acts, c, j - 1));
      if a.c == c {
        LeavesWithoutTake(r, a);
      }
    }
  }

  // ---------------------------------------------------------------------------------------------
  // A single CPU cleans up everything

  /** Where the only CPU can stand, having taken so many lists; the mask is what it last read. */
  ghost predicate Solo(s: State, l: Local, taken: nat) {
    match l
    case Outside => taken == NUM_GEN
    case Loading(claim, _) => !claim && taken < NUM_GEN
    case Inspecting(seen, _) => seen == s.genMask && taken < NUM_GEN
    case Swapping(seen, next, claim, _) => seen == s.genMask && claim && next == {} && taken < NUM_GEN
    case Locking(next, _) => next == {} && taken < NUM_GEN
    case Draining(next, _, _) => next == {} && taken <= NUM_GEN
    case _ => l.next == {} && taken == NUM_GEN
  }

  lemma SoloStep(s: State, a: Action, taken: nat)
    requires Wf(s) && Enabled(s, a) && s.cpus == {a.c} && !s.local[a.c].Outside? && taken == Counted(s.local[a.c])
    requires Solo(s, s.local[a.c], taken)
    ensures var r := Step(s, a); Solo(r, r.local[a.c], if a.Take? then taken + 1 else taken)
  {
    hide Disturbs;
    assert s.genMask + {a.c} == s.cpus && s.inactive - {a.c} == {};
  }

  lemma GenStep(s: State, a: Action)
    requires Wf(s) && Enabled(s, a)
    ensures var r := Step(s, a); r.gen == (if a.Take? then s.gen + 1 else s.gen) && s.deferred <= r.deferred
  {
    hide Disturbs;
  }

  lemma {:induction false} SoloCall(s: State, acts: seq<Action>, c: Cpu, i: nat, j: nat)
    requires Wf(s) && s.cpus == {c} && Runs(s, acts) && InCall(s, acts, c, i, j)
    ensures var r, taken := At(s, acts, j), Takes(acts, c, i, j);
            && Wf(r) && c in r.cpus && Solo(r, r.local[c], taken)
            && r.gen == At(s, acts, i).gen + taken && At(s, acts, i).deferred <= r.deferred
    decreases j
  {
    hide Runs, At, Enabled, Step, Wf, Solo, Counted;
    AtStep(s, acts, j - 1);
    var q, a := At(s, acts, j - 1), acts[j - 1];
    assert a.c == c by { OwnAction(q, a, c); }
    GenStep(q, a);
    if j == i + 1 {
      OwnCount(q, a);
      SoloEntry(Step(q, a));
    } else {
      assert Inside(s, acts, c, j - 1);
      SoloCall(s, acts, c, i, j - 1);
      CountsTakes(s, acts, c, i, j - 1);
      OwnReads(a, c);
      SoloStep(q, a, Takes(acts, c, i, j - 1));
    }
    AtFacts(s, acts, j);
  }

  lemma OwnAction(s: State, a: Action, c: Cpu)
    requires Wf(s) && Enabled(s, a) && s.cpus == {c}
    ensures a.c == c
  {
  }

  lemma SoloEntry(s: State)
    ensures Solo(s, Loading(false, 0), 0)
  {
  }

  /** What was deferred at least three generations ago is collected, when nobody is cleaning. */
  lemma OldCollected(s: State, r: State)
    requires Inv(s) && Inv(r) && s.deferred <= r.deferred && r.gen >= s.gen + 3
    requires forall c :: c in r.cpus ==> !r.local[c].Draining?
    requires forall n :: n in s.deferred ==> n.gen <= s.gen
    ensures s.deferred <= r.collected
  {
    var pending := Slot(r, 0) + Slot(r, 1) + Slot(r, 2);
    assert r.deferred == r.collected + pending;
    assert forall n :: n in pending ==> n.gen + 2 >= r.gen;
    if |r.collected| < |s.deferred| {
      FirstOfRest(s.deferred, r.collected, pending);
    }
  }

  lemma FirstOfRest(a: seq<Node>, b: seq<Node>, c: seq<Node>)
    requires a <= b + c && |b| < |a|
    ensures exists n :: n in a && n in c
  {
    assert a[|b|] == c[0] && a[|b|] in a && c[0] in c;
  }

  /** Items carry the generation they were deferred in. */
  ghost predicate Aged(s: State) {
    forall n :: n in s.deferred ==> n.gen <= s.gen
  }

  lemma AgedStep(s: State, a: Action)
    requires Wf(s) && Aged(s) && Enabled(s, a)
    ensures Aged(Step(s, a))
  {
    hide Disturbs;
  }

  lemma {:induction false} AgedRun(s: State, acts: seq<Action>)
    requires Wf(s) && Aged(s) && Runs(s, acts)
    ensures Aged(After(s, acts))
    decreases |acts|
  {
    hide Step, Enabled, Aged;
    if acts != [] {
      AgedRun(s, acts[..|acts| - 1]);
      AgedStep(After(s, acts[..|acts| - 1]), acts[|acts| - 1]);
    }
  }

  lemma SoloInv(c: Cpu, acts: seq<Action>, k: nat)
    requires Runs(Init({c}, 2), acts) && k <= |acts|
    ensures Inv(At(Init({c}, 2), acts, k)) && Aged(At(Init({c}, 2), acts, k))
  {
    hide Runs, After, Inv, Aged;
    PrefixRuns(Init({c}, 2), acts, k);
    AloneUndisturbed({c}, acts[..k]);
    RunInv({c}, acts[..k]);
    NothingAged(c);
    AgedRun(Init({c}, 2), acts[..k]);
  }

  lemma NothingAged(c: Cpu)
    ensures Aged(Init({c}, 2))
  {
  }

  /** On a single CPU, pausing or not, every call of rcu_check goes through four generations and
      collects all that was deferred before it. */
  lemma SingleCpuCleans(c: Cpu, acts: seq<Action>, i: nat, j: nat)
    requires Runs(Init({c}, 2), acts) && Call(Init({c}, 2), acts, c, i, j)
    ensures At(Init({c}, 2), acts, j).gen == At(Init({c}, 2), acts, i).gen + NUM_GEN
    ensures At(Init({c}, 2), acts, i).deferred <= At(Init({c}, 2), acts, j).collected
  {
    hide Runs, At, Inv;
    var s := Init({c}, 2);
    SoloCall(s, acts, c, i, j);
    SoloInv(c, acts, i);
    SoloInv(c, acts, j);
    AtFacts(s, acts, j);
    OldCollected(At(s, acts, i), At(s, acts, j));
  }

  // ---------------------------------------------------------------------------------------------
  // Coming back from a pause

  /** The mask c installed by its last claim, while it is cleaning or rejoining. */
  ghost predicate Installed(l: Local, mask: set<Cpu>) {
    (l.Locking? || l.Draining? || l.Rejoining? || l.Rechecking?) && l.next == mask
  }

  lemma ClaimInstalls(s: State, c: Cpu)
    requires Wf(s) && Enabled(s, Swap(c)) && Step(s, Swap(c)).local[c].Locking?
    ensures Installed(Step(s, Swap(c)).local[c], Step(s, Swap(c)).genMask)
  {
  }

  lemma StillInstalled(s: State, a: Action, mask: set<Cpu>)
    requires Wf(s) && Enabled(s, a) && Installed(s.local[a.c], mask)
    ensures var l := Step(s, a).local[a.c]; Installed(l, mask) || l.Loading? || l.Outside?
  {
    hide Disturbs;
  }

  lemma {:induction false} KeepsInstalled(s: State, acts: seq<Action>, c: Cpu, m: nat, k: nat)
    requires Wf(s) && Runs(s, acts) && m < k <= |acts| && c in s.cpus && acts[m] == Swap(c)
    requires StandsAt(s, acts, c, m + 1).Locking?
    requires forall e :: m < e <= k ==> var l := StandsAt(s, acts, c, e); !l.Loading? && !l.Outside?
    ensures Installed(StandsAt(s, acts, c, k), At(s, acts, m + 1).genMask)
    decreases k
  {
    hide Runs, At, Enabled, Step, Wf, Installed;
    AtStep(s, acts, k - 1);
    var r, a := At(s, acts, k - 1), acts[k - 1];
    if k == m + 1 {
      ClaimInstalls(r, c);
    } else {
      KeepsInstalled(s, acts, c, m, k - 1);
      if a.c == c {
        StillInstalled(r, a, At(s, acts, m + 1).genMask);
      } else {
        OthersStay(r, a, c);
      }
    }
  }

  lemma RecheckOn(s: State, c: Cpu, mask: set<Cpu>)
    requires Wf(s) && Enabled(s, Recheck(c)) && Installed(s.local[c], mask)
    ensures var l := Step(s, Recheck(c)).local[c];
            (l.Loading? <==> s.genMask == s.cpus && mask + {c} != s.cpus) && (l.Loading? || l.Outside?)
  {
  }

  /** A paused CPU that has put its bit back, by action k, goes round once more exactly when that
      completed the round and its claim, action m, had left others to wait for. */
  lemma ChecksAgainExactly(s: State, acts: seq<Action>, c: Cpu, m: nat, k: nat)
    requires Wf(s) && Runs(s, acts) && m < k < |acts| && c in s.cpus && acts[m] == Swap(c) && acts[k] == Recheck(c)
    requires StandsAt(s, acts, c, m + 1).Locking?
    requires forall e :: m < e <= k ==> var l := StandsAt(s, acts, c, e); !l.Loading? && !l.Outside?
    ensures StandsAt(s, acts, c, k + 1).Loading? <==>
              At(s, acts, k).genMask == s.cpus && At(s, acts, m + 1).genMask + {c} != s.cpus
    ensures StandsAt(s, acts, c, k + 1).Loading? || StandsAt(s, acts, c, k + 1).Outside?
  {
    hide Runs, At, Enabled, Step, Wf, Installed;
    KeepsInstalled(s, acts, c, m, k);
    AtStep(s, acts, k);
    RecheckOn(At(s, acts, k), c, At(s, acts, m + 1).genMask);
  }
}
