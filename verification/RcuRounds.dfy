/** Rounds of checks: when every CPU has been through rcu_check, or is counted in already because it
    pauses, the generation moves on; and a pause lasts until it has. */
module RcuRounds {
  import opened Rcu
  import opened RcuRuns
  import opened RcuProgress

  /** A swap that claims nothing adds the CPU's own bit and leaves the round incomplete. */
  ghost predicate Adding(s: State)
    requires Wf(s)
  {
    forall c :: c in s.cpus ==> Adds(s.local[c], c, s.cpus)
  }

  ghost predicate Adds(l: Local, c: Cpu, cpus: set<Cpu>) {
    l.Swapping? && !l.claim ==> l.next == l.seen + {c} && l.next != cpus
  }

  lemma OwnAdds(s: State, a: Action)
    requires Wf(s) && Enabled(s, a) && Adds(s.local[a.c], a.c, s.cpus)
    ensures Adds(Step(s, a).local[a.c], a.c, s.cpus)
  {
    hide Disturbs;
  }

  lemma AddingStep(s: State, a: Action)
    requires Wf(s) && Adding(s) && Enabled(s, a)
    ensures Adding(Step(s, a))
  {
    hide Enabled, Step, Adds;
    ActorKnown(s, a);
    forall c | c in s.cpus
      ensures Adds(Step(s, a).local[c], c, s.cpus)
    {
      if c == a.c {
        OwnAdds(s, a);
      } else {
        OthersStay(s, a, c);
      }
    }
  }

  lemma {:induction false} AddingAt(s: State, acts: seq<Action>, k: nat)
    requires Wf(s) && Adding(s) && Runs(s, acts) && k <= |acts|
    ensures Adding(At(s, acts, k))
    decreases k
  {
    hide Runs, Enabled, Step, Wf, Adding;
    if k > 0 {
      AddingAt(s, acts, k - 1);
      AtStep(s, acts, k - 1);
      hide At;
      AddingStep(At(s, acts, k - 1), acts[k - 1]);
    } else {
      assert acts[..0] == [];
    }
  }

  /** Nobody has claimed a list and not taken it. */
  ghost predicate Idle(s: State)
    requires Wf(s)
  {
    forall c :: c in s.cpus ==> !s.local[c].Locking?
  }

  /** From i to j no list is taken, and none is claimed at j. */
  ghost predicate Quiet(s: State, acts: seq<Action>, i: nat, j: nat)
    requires Wf(s) && Runs(s, acts)
  {
    i <= j <= |acts| && (forall k :: i <= k < j ==> !acts[k].Take?) && Idle(At(s, acts, j))
  }

  /** A claim is given up only by taking the list, so none was made; then the mask only grows. */
  lemma QuietStep(s: State, a: Action)
    requires Wf(s) && Adding(s) && Enabled(s, a) && !a.Take? && Idle(Step(s, a))
    ensures Idle(s) && s.genMask <= Step(s, a).genMask
  {
    hide Disturbs;
    var r := Step(s, a);
    forall c | c in s.cpus
      ensures !s.local[c].Locking?
    {
      assert !r.local[c].Locking?;
    }
  }

  lemma QuietBefore(s: State, acts: seq<Action>, i: nat, j: nat)
    requires Wf(s) && Adding(s) && Runs(s, acts) && i < j && Quiet(s, acts, i, j)
    ensures Quiet(s, acts, i, j - 1) && At(s, acts, j - 1).genMask <= At(s, acts, j).genMask
  {
    hide Runs, At, Enabled, Step, Wf, Adding, Idle;
    AtStep(s, acts, j - 1);
    AddingAt(s, acts, j - 1);
    QuietStep(At(s, acts, j - 1), acts[j - 1]);
  }

  lemma {:induction false} MaskGrows(s: State, acts: seq<Action>, i: nat, k: nat, j: nat)
    requires Wf(s) && Adding(s) && Runs(s, acts) && i <= k <= j && Quiet(s, acts, i, j)
    ensures Quiet(s, acts, i, k) && At(s, acts, k).genMask <= At(s, acts, j).genMask
    decreases j
  {
    hide Runs, At, Wf, Adding, Quiet;
    if k < j {
      QuietBefore(s, acts, i, j);
      MaskGrows(s, acts, i, k, j - 1);
    }
  }

  /** In a call without a list taken or claimed, c is still marking itself. */
  ghost predicate Marking(l: Local) {
    l.Loading? || l.Inspecting? || l.Swapping?
  }

  lemma OwnMarks(s: State, a: Action)
    requires Wf(s) && Adding(s) && Enabled(s, a) && Marking(s.local[a.c]) && !Step(s, a).local[a.c].Locking?
    ensures var r := Step(s, a);
            Marking(r.local[a.c]) || (r.local[a.c].Outside? && a.c in r.genMask && r.genMask != s.cpus)
  {
    hide Disturbs;
  }

  /** A call in a quiet stretch ends with the CPU in the mask, and the round incomplete. */
  lemma {:induction false} CallMarks(s: State, acts: seq<Action>, c: Cpu, i: nat, a: nat, j: nat)
    requires Wf(s) && Adding(s) && Runs(s, acts) && i <= a && InCall(s, acts, c, a, j) && Quiet(s, acts, i, j)
    ensures var r := At(s, acts, j);
            Marking(StandsAt(s, acts, c, j)) || (!Inside(s, acts, c, j) && c in r.genMask && r.genMask != s.cpus)
    decreases j
  {
    hide Runs, At, Enabled, Step, Wf, Adding, Marking;
    AtStep(s, acts, j - 1);
    var r, e := At(s, acts, j - 1), acts[j - 1];
    if j == a + 1 {
      OwnCount(r, e);
      EntryMarks();
    } else {
      assert Inside(s, acts, c, j - 1);
      QuietBefore(s, acts, i, j);
      CallMarks(s, acts, c, i, a, j - 1);
      AddingAt(s, acts, j - 1);
      if e.c == c {
        OwnMarks(r, e);
      } else {
        OthersStay(r, e, c);
      }
    }
  }

  lemma EntryMarks()
    ensures Marking(Loading(false, 0))
  {
  }

  /** c enters and leaves rcu_check between i and j. */
  ghost predicate Checks(s: State, acts: seq<Action>, c: Cpu, i: nat, j: nat)
    requires Wf(s) && Runs(s, acts)
  {
    exists a: nat, b: nat :: i <= a && b <= j && Call(s, acts, c, a, b)
  }

  /** c is counted in at i, or checks in by j. */
  ghost predicate Covered(s: State, acts: seq<Action>, c: Cpu, i: nat, j: nat)
    requires Wf(s) && Runs(s, acts) && i <= |acts|
  {
    c in At(s, acts, i).genMask || Checks(s, acts, c, i, j)
  }

  lemma CoveredMarked(s: State, acts: seq<Action>, c: Cpu, i: nat, j: nat)
    requires Wf(s) && Adding(s) && Runs(s, acts) && Quiet(s, acts, i, j) && Covered(s, acts, c, i, j)
    ensures c in At(s, acts, j).genMask
  {
    hide Runs, At, Wf, Adding, Quiet, Call;
    QuietRange(s, acts, i, j);
    if c in At(s, acts, i).genMask {
      MaskGrows(s, acts, i, i, j);
    } else {
      var a: nat, b: nat :| i <= a && b <= j && Call(s, acts, c, a, b);
      CallBounds(s, acts, c, a, b);
      MaskGrows(s, acts, i, b, j);
      CallMarks(s, acts, c, i, a, b);
      NotMarking(s, acts, c, b);
    }
  }

  lemma CallBounds(s: State, acts: seq<Action>, c: Cpu, a: nat, b: nat)
    requires Wf(s) && Runs(s, acts) && Call(s, acts, c, a, b)
    ensures a < b <= |acts| && c in s.cpus && InCall(s, acts, c, a, b) && !Inside(s, acts, c, b)
  {
  }

  lemma NotMarking(s: State, acts: seq<Action>, c: Cpu, k: nat)
    requires Wf(s) && Runs(s, acts) && k <= |acts| && c in s.cpus && !Inside(s, acts, c, k)
    ensures !Marking(StandsAt(s, acts, c, k))
  {
  }

  /** In a quiet stretch the last one to check in would complete the round, which makes it claim;
      so someone has not. */
  lemma {:induction false} QuietLacks(s: State, acts: seq<Action>, i: nat, j: nat) returns (c: Cpu)
    requires Wf(s) && Adding(s) && Runs(s, acts) && Quiet(s, acts, i, j)
    requires exists d :: d in s.cpus && Checks(s, acts, d, i, j)
    ensures c in s.cpus && !Covered(s, acts, c, i, j)
    decreases j
  {
    hide Runs, At, Wf, Adding, Quiet, Call;
    QuietRange(s, acts, i, j);
    if d :| d in s.cpus && Checks(s, acts, d, i, j) && (j == i || !Checks(s, acts, d, i, j - 1)) {
      LastMisses(s, acts, i, j, d);
      var r := At(s, acts, j);
      c := Missing(s, acts, j);
      if Covered(s, acts, c, i, j) {
        CoveredMarked(s, acts, c, i, j);
      }
    } else {
      QuietBefore(s, acts, i, j);
      c := QuietLacks(s, acts, i, j - 1);
    }
  }

  lemma QuietRange(s: State, acts: seq<Action>, i: nat, j: nat)
    requires Wf(s) && Runs(s, acts) && Quiet(s, acts, i, j)
    ensures i <= j <= |acts|
  {
  }

  /** The mask is incomplete when a call has just ended. */
  lemma LastMisses(s: State, acts: seq<Action>, i: nat, j: nat, d: Cpu)
    requires Wf(s) && Adding(s) && Runs(s, acts) && Quiet(s, acts, i, j) && d in s.cpus
    requires Checks(s, acts, d, i, j) && (j == i || !Checks(s, acts, d, i, j - 1))
    ensures At(s, acts, j).genMask != s.cpus
  {
    hide Runs, At, Wf, Adding, Quiet, Call;
    var a: nat, b: nat :| i <= a && b <= j && Call(s, acts, d, a, b);
    CallBounds(s, acts, d, a, b);
    assert b == j;
    CallMarks(s, acts, d, i, a, j);
    NotMarking(s, acts, d, j);
  }

  lemma Missing(s: State, acts: seq<Action>, j: nat) returns (c: Cpu)
    requires Wf(s) && Runs(s, acts) && j <= |acts| && At(s, acts, j).genMask != s.cpus
    ensures c in s.cpus && c !in At(s, acts, j).genMask
  {
    hide Runs, At;
    AtFacts(s, acts, j);
    var r := At(s, acts, j);
    assert r.genMask <= s.cpus;
    assert !(s.cpus <= r.genMask);
    c :| c in s.cpus && c !in r.genMask;
  }

  lemma {:induction false} GenMoves(s: State, acts: seq<Action>, i: nat, j: nat)
    requires Wf(s) && Runs(s, acts) && i <= j <= |acts|
    ensures At(s, acts, i).gen <= At(s, acts, j).gen
    ensures At(s, acts, i).gen == At(s, acts, j).gen ==> forall k :: i <= k < j ==> !acts[k].Take?
    decreases j
  {
    hide Runs, At, Wf, Enabled, Step;
    if i < j {
      GenMoves(s, acts, i, j - 1);
      AtStep(s, acts, j - 1);
      GenStep(At(s, acts, j - 1), acts[j - 1]);
    }
  }

  lemma InitAdds(cpus: set<Cpu>)
    ensures Adding(Init(cpus, 2))
  {
  }

  /** When each CPU was counted in or has been through a whole rcu_check, at least one of them the
      latter, the generation count has gone up or a list is claimed and about to be taken. This
      holds of every run, whatever pauses, stale claims and other calls come between. */
  lemma RoundMoves(cpus: set<Cpu>, acts: seq<Action>, i: nat, j: nat)
    requires Runs(Init(cpus, 2), acts) && i <= j <= |acts|
    requires forall c :: c in cpus ==> Covered(Init(cpus, 2), acts, c, i, j)
    requires exists c :: c in cpus && Checks(Init(cpus, 2), acts, c, i, j)
    ensures var s := Init(cpus, 2);
            At(s, acts, j).gen > At(s, acts, i).gen || exists c :: c in cpus && StandsAt(s, acts, c, j).Locking?
  {
    hide Runs, At, Adding, Covered, Checks, Init;
    var s := Init(cpus, 2);
    InitAdds(cpus);
    GenMoves(s, acts, i, j);
    AtFacts(s, acts, j);
    if At(s, acts, j).gen == At(s, acts, i).gen && Idle(At(s, acts, j)) {
      var c := QuietLacks(s, acts, i, j);
    }
  }

  // ---------------------------------------------------------------------------------------------
  // Pausing

  lemma {:induction false} StandsStill(s: State, acts: seq<Action>, c: Cpu, m: nat, k: nat)
    requires Wf(s) && Runs(s, acts) && c in s.cpus && m <= k <= |acts| && forall e :: m <= e < k ==> acts[e].c != c
    ensures StandsAt(s, acts, c, k) == StandsAt(s, acts, c, m)
    decreases k
  {
    hide Runs, At, Wf, Enabled, Step;
    if m < k {
      StandsStill(s, acts, c, m, k - 1);
      AtStep(s, acts, k - 1);
      OthersStay(At(s, acts, k - 1), acts[k - 1], c);
    }
  }

  lemma InspectThenSwap(s: State, c: Cpu)
    requires Wf(s) && Enabled(s, Inspect(c))
    ensures var l := Step(s, Inspect(c)).local[c]; l.Swapping? && l.claim && l.next == s.inactive - {c}
  {
  }

  lemma SwapInstalls(s: State, c: Cpu)
    requires Wf(s) && Enabled(s, Swap(c)) && s.genMask == s.local[c].seen
    ensures Step(s, Swap(c)).genMask == s.local[c].next
  {
  }

  /** After a claim exactly the CPUs found paused, the claimer apart, are counted in for the next
      round: c reads who is paused by action m and its swap succeeds by action k. */
  lemma PausedCounted(s: State, acts: seq<Action>, c: Cpu, m: nat, k: nat)
    requires Wf(s) && Runs(s, acts) && m < k < |acts| && acts[m] == Inspect(c) && acts[k] == Swap(c)
    requires forall e :: m < e < k ==> acts[e].c != c
    requires c in s.cpus && StandsAt(s, acts, c, k).Swapping? && StandsAt(s, acts, c, k).seen == At(s, acts, k).genMask
    ensures At(s, acts, k + 1).genMask == At(s, acts, m).inactive - {c}
  {
    hide Runs, At, Wf, Enabled, Step;
    AtStep(s, acts, m);
    InspectThenSwap(At(s, acts, m), c);
    StandsStill(s, acts, c, m + 1, k);
    AtStep(s, acts, k);
    SwapInstalls(At(s, acts, k), c);
  }

  lemma RejoinAdds(s: State, c: Cpu)
    requires Wf(s) && Enabled(s, Rejoin(c))
    ensures Step(s, Rejoin(c)).genMask == s.genMask + {c} && Step(s, Rejoin(c)).lastQ[c] == s.now
  {
  }

  /** A paused cleaner counts itself in before it leaves: c rejoins by action m and looks at the mask
      once more by action k; unless someone claims a list meanwhile its bit is still there. */
  lemma RejoinCounts(cpus: set<Cpu>, acts: seq<Action>, c: Cpu, m: nat, k: nat)
    requires Runs(Init(cpus, 2), acts) && c in cpus && m < k < |acts| && acts[m] == Rejoin(c) && acts[k] == Recheck(c)
    ensures var s := Init(cpus, 2);
            && At(s, acts, m + 1).genMask == At(s, acts, m).genMask + {c}
            && (Quiet(s, acts, m + 1, k + 1) ==> c in At(s, acts, k + 1).genMask)
  {
    hide Runs, At, Enabled, Step, Adding, Quiet, Init;
    var s := Init(cpus, 2);
    AtStep(s, acts, m);
    RejoinAdds(At(s, acts, m), c);
    InitAdds(cpus);
    if Quiet(s, acts, m + 1, k + 1) {
      MaskGrows(s, acts, m + 1, m + 1, k + 1);
    }
  }

  /** c stands in a pause begun at generation g, and has checked since only if `checked`. */
  ghost predicate Pausing(m: Mode, g: nat, checked: bool) {
    match m
    case Running => false
    case Starting(start) => start == g
    case Paused(start, ch) => start == g && (ch ==> checked)
  }

  /** c enters rcu_check by an action between i and j. */
  ghost predicate Entered(acts: seq<Action>, c: Cpu, i: nat, j: nat) {
    exists k :: i < k < j && k < |acts| && acts[k] == Enter(c)
  }

  lemma PausingStep(s: State, a: Action, c: Cpu, g: nat, checked: bool)
    requires Wf(s) && Enabled(s, a) && c in s.cpus
    requires Pausing(s.mode[c], g, checked) && a != PauseStart(c) && a != PauseLeave(c)
    ensures Pausing(Step(s, a).mode[c], g, checked || a == Enter(c))
  {
    hide Disturbs;
  }

  lemma {:induction false} PausesOn(s: State, acts: seq<Action>, c: Cpu, i: nat, j: nat)
    requires Wf(s) && Runs(s, acts) && c in s.cpus && i < j <= |acts| && acts[i] == PauseStart(c)
    requires forall k :: i < k < j ==> acts[k] != PauseStart(c) && acts[k] != PauseLeave(c)
    ensures Wf(At(s, acts, j)) && c in At(s, acts, j).cpus
    ensures Pausing(At(s, acts, j).mode[c], At(s, acts, i).gen, Entered(acts, c, i, j))
    decreases j
  {
    hide Runs, At, Wf, Enabled, Step, Pausing;
    AtStep(s, acts, j - 1);
    AtFacts(s, acts, j);
    var r, a := At(s, acts, j - 1), acts[j - 1];
    if j == i + 1 {
      PauseStarts(r, c, Entered(acts, c, i, j));
    } else {
      PausesOn(s, acts, c, i, j - 1);
      assert Entered(acts, c, i, j) <==> Entered(acts, c, i, j - 1) || a == Enter(c);
      PausingStep(r, a, c, At(s, acts, i).gen, Entered(acts, c, i, j - 1));
    }
  }

  lemma PauseStarts(s: State, c: Cpu, checked: bool)
    requires Wf(s) && Enabled(s, PauseStart(c))
    ensures Pausing(Step(s, PauseStart(c)).mode[c], s.gen, checked)
  {
  }

  lemma PauseEnds(s: State, c: Cpu, g: nat, checked: bool)
    requires Wf(s) && Enabled(s, PauseLeave(c)) && Pausing(s.mode[c], g, checked)
    ensures s.gen != g && checked
  {
  }

  /** rcu_pause returns only after a check of its own and with the generation count gone up. */
  lemma PauseWaits(s: State, acts: seq<Action>, c: Cpu, i: nat, j: nat)
    requires Wf(s) && Runs(s, acts) && i < j < |acts| && acts[i] == PauseStart(c) && acts[j] == PauseLeave(c)
    requires forall k :: i < k < j ==> acts[k] != PauseStart(c) && acts[k] != PauseLeave(c)
    ensures At(s, acts, i).gen < At(s, acts, j).gen
    ensures Entered(acts, c, i, j)
  {
    hide Runs, At, Wf, Enabled, Step, Pausing;
    AtStep(s, acts, j);
    ActorKnown(At(s, acts, j), acts[j]);
    PausesOn(s, acts, c, i, j);
    PauseEnds(At(s, acts, j), c, At(s, acts, i).gen, Entered(acts, c, i, j));
    GenMoves(s, acts, i, j);
  }

  lemma ActorKnown(s: State, a: Action)
    requires Wf(s) && Enabled(s, a)
    ensures a.c in s.cpus
  {
  }
}
