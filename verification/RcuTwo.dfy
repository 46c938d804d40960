/** Two CPUs: however they pause and whatever they read stale, the grace period holds. A CPU that
    has not been quiescent since an item was deferred leaves the other one, and itself, too few
    claims to reach the item's generation. */
module RcuTwo {
  import opened Rcu
  import opened RcuRuns
  import opened RcuItems

  /** Claims that start from a fresh reading of the mask: one, if z's bit is in it, since the claim
      itself takes the bit of an active CPU out. */
  ghost function Fresh(mask: set<Cpu>, z: Cpu): nat {
    if z in mask then 1 else 0
  }

  /** Lists the other CPU, standing at l, can still take before z is quiescent. */
  ghost function Claims(mask: set<Cpu>, l: Local, z: Cpu): nat {
    match l
    case Loading(claim, _) => if claim then 1 else Fresh(mask, z)
    case Inspecting(_, _) => 1
    case Swapping(seen, next, claim, _) =>
      if seen == mask then (if claim then 1 else 0) + Fresh(next, z)
      else if claim then 1
      else Fresh(mask, z)
    case Locking(_, _) => 1 + Fresh(mask, z)
    case _ => Fresh(mask, z)
  }

  /** Lists either CPU can still take before z is quiescent. */
  ghost function Takes(s: State, z: Cpu, w: Cpu): nat
    requires Wf(s) && z in s.cpus && w in s.cpus
  {
    (if s.local[z].Locking? then 1 else 0) + Claims(s.genMask, s.local[w], z)
  }

  ghost predicate Pair(s: State, z: Cpu, w: Cpu) {
    Wf(s) && z != w && s.cpus == {z, w}
  }

  /** The other CPU's step uses up what it takes. */
  lemma OtherFalls(s: State, a: Action, z: Cpu, w: Cpu)
    requires Pair(s, z, w) && Enabled(s, a) && z !in s.inactive && a.c == w
    ensures var r := Step(s, a); Pair(r, z, w) && z !in r.inactive && Takes(r, z, w) + r.gen <= Takes(s, z, w) + s.gen
  {
    hide Disturbs;
    match a
    case Load(_) => OtherLoads(s, z, w);
    case Inspect(_) => OtherInspects(s, z, w);
    case Swap(_) => OtherSwaps(s, z, w);
    case _ => OtherRest(s, a, z, w);
  }

  lemma OtherRest(s: State, a: Action, z: Cpu, w: Cpu)
    requires Pair(s, z, w) && Enabled(s, a) && z !in s.inactive && a.c == w && !a.Load? && !a.Inspect? && !a.Swap?
    ensures var r := Step(s, a); z !in r.inactive && Takes(r, z, w) + r.gen <= Takes(s, z, w) + s.gen
  {
    hide Disturbs;
  }

  lemma OtherLoads(s: State, z: Cpu, w: Cpu)
    requires Pair(s, z, w) && Enabled(s, Load(w))
    ensures var r := DoLoad(s, w); Takes(r, z, w) <= Takes(s, z, w)
  {
    assert s.genMask + {w} == s.cpus <==> z in s.genMask;
  }

  lemma OtherInspects(s: State, z: Cpu, w: Cpu)
    requires Pair(s, z, w) && Enabled(s, Inspect(w)) && z !in s.inactive
    ensures Takes(DoInspect(s, w), z, w) <= Takes(s, z, w)
  {
  }

  lemma OtherSwaps(s: State, z: Cpu, w: Cpu)
    requires Pair(s, z, w) && Enabled(s, Swap(w))
    ensures Takes(DoSwap(s, w), z, w) <= Takes(s, z, w)
  {
    hide Disturbs;
  }

  /** z's own step, if not quiescent, does too. */
  lemma OwnFalls(s: State, a: Action, z: Cpu, w: Cpu)
    requires Pair(s, z, w) && Enabled(s, a) && z !in s.inactive && a.c == z && !Quiescent(s, a, z)
    ensures var r := Step(s, a); Pair(r, z, w) && z !in r.inactive && Takes(r, z, w) + r.gen <= Takes(s, z, w) + s.gen
  {
    hide Disturbs;
  }

  /** Whoever defers is not between its own claim and taking the list, so two lists at most can be
      taken before z is quiescent. */
  lemma AtMostTwo(s: State, a: Action, z: Cpu, w: Cpu)
    requires Pair(s, z, w) && Enabled(s, a) && a.Defer?
    ensures Takes(s, z, w) <= 2
  {
  }

  /** z was active when n was deferred and has not been quiescent since. */
  ghost predicate Owes(s: State, z: Cpu, n: Node)
    requires Wf(s)
  {
    z in s.cpus && !Passed(s.lastQ, z, n)
  }

  ghost predicate SafeItem(s: State, n: Node)
    requires Wf(s)
  {
    forall z: Cpu, w: Cpu :: Owes(s, z, n) && w in s.cpus && w != z ==>
                     z !in s.inactive && Takes(s, z, w) + s.gen <= n.gen + 2
  }

  ghost predicate Settled(s: State, n: Node)
    requires Wf(s)
  {
    forall z :: z in s.cpus ==> Passed(s.lastQ, z, n)
  }

  /** Items in slots are out of reach of the claims left; items taken are settled. */
  ghost predicate Safe(s: State)
    requires Wf(s)
  {
    && Timely(s)
    && (forall k, n :: 0 <= k < NUM_GEN && n in s.slots[k] ==> SafeItem(s, n))
    && (forall c, n :: c in s.cpus && s.local[c].Draining? && n in s.local[c].list ==> Settled(s, n) && n.at < s.now)
  }

  /** Quiescent moments only move forward, past everything deferred so far. */
  lemma StillPassed(s: State, a: Action, z: Cpu, n: Node)
    requires Wf(s) && Enabled(s, a) && z in s.cpus && n.at < s.now
    ensures var r := Step(s, a);
            && (Passed(s.lastQ, z, n) ==> Passed(r.lastQ, z, n))
            && (Quiescent(s, a, z) ==> Passed(r.lastQ, z, n))
  {
    hide Disturbs;
  }

  lemma ItemStaysSafe(s: State, a: Action, n: Node, x: Cpu, y: Cpu)
    requires Pair(s, x, y) && Enabled(s, a) && SafeItem(s, n) && n.at < s.now
    ensures SafeItem(Step(s, a), n)
  {
    hide Step, Enabled, Quiescent, Takes, Passed;
    var r := Step(s, a);
    assert a.c in s.cpus by { ActsOnCpu(s, a); }
    forall z: Cpu, w: Cpu | Owes(r, z, n) && w in r.cpus && w != z
      ensures z !in r.inactive && Takes(r, z, w) + r.gen <= n.gen + 2
    {
      StillPassed(s, a, z, n);
      assert s.cpus == {z, w};
      if a.c == w {
        OtherFalls(s, a, z, w);
      } else {
        OwnFalls(s, a, z, w);
      }
    }
  }

  lemma ActsOnCpu(s: State, a: Action)
    requires Wf(s) && Enabled(s, a)
    ensures a.c in s.cpus
  {
  }

  /** A list is taken only when nobody owes anything on it. */
  lemma TakenSettled(s: State, c: Cpu, n: Node, x: Cpu, y: Cpu)
    requires Pair(s, x, y) && Safe(s) && Enabled(s, Take(c)) && n in s.slots[s.gen % NUM_GEN]
    ensures Settled(s, n)
  {
    assert SafeItem(s, n) && n.gen + 2 == s.gen;
    forall z | z in s.cpus
      ensures Passed(s.lastQ, z, n)
    {
      var w := if z == x then y else x;
      assert Takes(s, z, w) >= 1;
      assert !Owes(s, z, n);
    }
  }

  /** Where the items of the next state come from. */
  lemma ItemsFrom(s: State, a: Action)
    requires Wf(s) && Enabled(s, a) && !a.Defer? && !a.Take?
    ensures var r := Step(s, a);
            && r.slots == s.slots && s.now <= r.now
            && forall c, n :: c in r.cpus && r.local[c].Draining? && n in r.local[c].list ==>
                                s.local[c].Draining? && n in s.local[c].list
  {
    hide Disturbs;
  }

  lemma SettledStays(s: State, a: Action, n: Node)
    requires Wf(s) && Enabled(s, a) && Settled(s, n) && n.at < s.now
    ensures Settled(Step(s, a), n)
  {
    hide Step, Passed;
    forall z | z in s.cpus
      ensures Passed(Step(s, a).lastQ, z, n)
    {
      StillPassed(s, a, z, n);
    }
  }

  lemma SafeTake(s: State, c: Cpu, x: Cpu, y: Cpu)
    requires Pair(s, x, y) && Safe(s) && Enabled(s, Take(c))
    ensures Safe(Step(s, Take(c)))
  {
    var a := Take(c);
    var r := Step(s, a);
    TimelyStep(s, a);
    hide Timely, SafeItem, Settled;
    forall k, n | 0 <= k < NUM_GEN && n in r.slots[k]
      ensures SafeItem(r, n)
    {
      SlotMoment(s, k, n);
      ItemStaysSafe(s, a, n, x, y);
    }
    forall d, n | d in r.cpus && r.local[d].Draining? && n in r.local[d].list
      ensures Settled(r, n) && n.at < r.now
    {
      if d == c {
        SlotMoment(s, s.gen % NUM_GEN, n);
        TakenSettled(s, c, n, x, y);
      }
      SettledStays(s, a, n);
    }
  }

  lemma SlotMoment(s: State, k: nat, n: Node)
    requires Wf(s) && Timely(s) && k < NUM_GEN && n in s.slots[k]
    ensures n.at < s.now
  {
  }

  lemma SafeDefer(s: State, a: Action, x: Cpu, y: Cpu)
    requires Pair(s, x, y) && Safe(s) && Enabled(s, a) && a.Defer?
    ensures Safe(Step(s, a))
  {
    var r := Step(s, a);
    TimelyStep(s, a);
    NewItemSafe(s, a, x, y);
    hide Timely, SafeItem, Settled;
    forall k, n | 0 <= k < NUM_GEN && n in r.slots[k]
      ensures SafeItem(r, n)
    {
      if n in s.slots[k] {
        SlotMoment(s, k, n);
        ItemStaysSafe(s, a, n, x, y);
      }
    }
    forall d, n | d in r.cpus && r.local[d].Draining? && n in r.local[d].list
      ensures Settled(r, n) && n.at < r.now
    {
      SettledStays(s, a, n);
    }
  }

  lemma NewItemSafe(s: State, a: Action, x: Cpu, y: Cpu)
    requires Pair(s, x, y) && Enabled(s, a) && a.Defer?
    ensures SafeItem(Step(s, a), Node(a.id, s.gen, s.now, s.cpus - s.inactive))
  {
    forall z: Cpu, w: Cpu | z in s.cpus && w in s.cpus && w != z
      ensures Takes(s, z, w) <= 2
    {
      assert s.cpus == {z, w};
      AtMostTwo(s, a, z, w);
    }
    assert Step(s, a).local == s.local && Step(s, a).genMask == s.genMask;
    hide Claims;
  }

  lemma SafeStep(s: State, a: Action, x: Cpu, y: Cpu)
    requires Pair(s, x, y) && Safe(s) && Enabled(s, a)
    ensures Safe(Step(s, a)) && Pair(Step(s, a), x, y)
  {
    hide Enabled, Step, Timely, SafeItem, Settled;
    if a.Take? {
      SafeTake(s, a.c, x, y);
    } else if a.Defer? {
      SafeDefer(s, a, x, y);
    } else {
      var r := Step(s, a);
      TimelyStep(s, a);
      ItemsFrom(s, a);
      forall k, n | 0 <= k < NUM_GEN && n in r.slots[k]
        ensures SafeItem(r, n)
      {
        SlotMoment(s, k, n);
        ItemStaysSafe(s, a, n, x, y);
      }
      forall d, n | d in r.cpus && r.local[d].Draining? && n in r.local[d].list
        ensures Settled(r, n) && n.at < r.now
      {
        SettledStays(s, a, n);
      }
    }
  }

  lemma {:induction false} SafeRun(x: Cpu, y: Cpu, acts: seq<Action>)
    requires x != y && Runs(Init({x, y}, 2), acts)
    ensures var r := After(Init({x, y}, 2), acts); Pair(r, x, y) && Safe(r)
    decreases |acts|
  {
    hide Step, Enabled;
    if acts != [] {
      SafeRun(x, y, acts[..|acts| - 1]);
      hide Safe;
      SafeStep(After(Init({x, y}, 2), acts[..|acts| - 1]), acts[|acts| - 1], x, y);
    }
  }

  /** On two CPUs, pausing or not, when a collector is about to run both have been quiescent since
      its item was deferred, or were not active then. */
  lemma TwoGraceful(x: Cpu, y: Cpu, acts: seq<Action>)
    requires x != y && Runs(Init({x, y}, 2), acts)
    ensures Graceful(After(Init({x, y}, 2), acts))
  {
    hide Runs, After;
    SafeRun(x, y, acts);
    var r := After(Init({x, y}, 2), acts);
    forall c, d | c in r.cpus && Enabled(r, Collect(c)) && d in r.cpus
      ensures Passed(r.lastQ, d, r.local[c].list[0])
    {
      assert r.local[c].list[0] in r.local[c].list;
      assert Settled(r, r.local[c].list[0]);
    }
  }
}
