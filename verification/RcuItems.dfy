/** What becomes of deferred items in every run, pauses and stale claims included. */
module RcuItems {
  import opened Rcu

  // ---------------------------------------------------------------------------------------------
  // Slots

  /** An item sits in the slot of the generation it was deferred for, which is not over yet. */
  ghost predicate Timely(s: State)
    requires Wf(s)
  {
    && s.ahead == 2
    && forall k, n :: 0 <= k < NUM_GEN && n in s.slots[k] ==>
                        k == (n.gen + 2) % NUM_GEN && s.gen <= n.gen + 2 <= s.gen + 2 && n.at < s.now
  }

  lemma TimelyTake(s: State, c: Cpu)
    requires Wf(s) && Timely(s) && Enabled(s, Take(c))
    ensures Timely(DoTake(s, c))
  {
    var r := DoTake(s, c);
    forall k, n | 0 <= k < NUM_GEN && n in r.slots[k]
      ensures k == (n.gen + 2) % NUM_GEN && r.gen <= n.gen + 2 <= r.gen + 2
    {
      assert n in s.slots[k] && k != s.gen % NUM_GEN;
    }
  }

  lemma TimelyDefer(s: State, id: nat)
    requires Wf(s) && Timely(s)
    ensures Timely(DoDefer(s, id))
  {
  }

  lemma TimelyStep(s: State, a: Action)
    requires Wf(s) && Timely(s) && Enabled(s, a)
    ensures Timely(Step(s, a))
  {
    hide Disturbs, Wf;
    match a
    case Take(c) => TimelyTake(s, c);
    case Defer(_, id) => TimelyDefer(s, id);
    case _ =>
  }

  lemma {:induction false} TimelyRun(cpus: set<Cpu>, acts: seq<Action>)
    requires Runs(Init(cpus, 2), acts)
    ensures Timely(After(Init(cpus, 2), acts))
    decreases |acts|
  {
    hide Step, Enabled;
    if acts != [] {
      TimelyRun(cpus, acts[..|acts| - 1]);
      TimelyStep(After(Init(cpus, 2), acts[..|acts| - 1]), acts[|acts| - 1]);
    }
  }

  /** In every run the slot behind the current generation is empty. */
  lemma SlotBehindEmpty(cpus: set<Cpu>, acts: seq<Action>)
    requires Runs(Init(cpus, 2), acts)
    ensures var r := After(Init(cpus, 2), acts); r.slots[(r.gen + 3) % NUM_GEN] == []
  {
    hide Runs, After, Timely;
    TimelyRun(cpus, acts);
    TimelyBehind(After(Init(cpus, 2), acts));
  }

  lemma TimelyBehind(s: State)
    requires Wf(s) && Timely(s)
    ensures s.slots[(s.gen + 3) % NUM_GEN] == []
  {
    var k := (s.gen + 3) % NUM_GEN;
    HasMember(s.slots[k]);
    forall n
      ensures n !in s.slots[k]
    {
      NotBehind(s.gen, n.gen + 2);
    }
  }

  lemma HasMember(list: seq<Node>)
    ensures list == [] || exists n :: n in list
  {
    assert list == [] || list[0] in list;
  }

  lemma NotBehind(gen: nat, due: nat)
    ensures gen <= due <= gen + 2 ==> due % NUM_GEN != (gen + 3) % NUM_GEN
  {
  }

  // ---------------------------------------------------------------------------------------------
  // Every item is in one place

  ghost function ListOf(l: Local): multiset<Node> {
    if l.Draining? then multiset(l.list) else multiset{}
  }

  /** What the CPUs in cs are about to collect. */
  ghost function InHand(local: map<Cpu, Local>, cs: set<Cpu>): multiset<Node>
    requires cs <= local.Keys
  {
    if cs == {} then multiset{}
    else
      var c :| c in cs;
      ListOf(local[c]) + InHand(local, cs - {c})
  }

  lemma {:induction false} InHandSplit(local: map<Cpu, Local>, cs: set<Cpu>, c: Cpu)
    requires cs <= local.Keys && c in cs
    ensures InHand(local, cs) == ListOf(local[c]) + InHand(local, cs - {c})
  {
    var d :| d in cs && InHand(local, cs) == ListOf(local[d]) + InHand(local, cs - {d});
    if d != c {
      InHandSplit(local, cs - {d}, c);
      InHandSplit(local, cs - {c}, d);
      assert cs - {d} - {c} == cs - {c} - {d};
    }
  }

  lemma {:induction false} InHandSame(a: map<Cpu, Local>, b: map<Cpu, Local>, cs: set<Cpu>)
    requires cs <= a.Keys && cs <= b.Keys && forall c :: c in cs ==> ListOf(a[c]) == ListOf(b[c])
    ensures InHand(a, cs) == InHand(b, cs)
  {
    if cs != {} {
      var c :| c in cs;
      InHandSplit(a, cs, c);
      InHandSplit(b, cs, c);
      InHandSame(a, b, cs - {c});
    }
  }

  ghost function Waiting(slots: seq<seq<Node>>): multiset<Node>
    requires |slots| == NUM_GEN
  {
    multiset(slots[0]) + multiset(slots[1]) + multiset(slots[2]) + multiset(slots[3])
  }

  /** Items deferred are in a slot, in a cleaner's hand or collected, each in one place once. */
  ghost predicate Conserved(s: State)
    requires Wf(s)
  {
    multiset(s.deferred) == Waiting(s.slots) + InHand(s.local, s.cpus) + multiset(s.collected)
  }

  /** The items in the order they were deferred, no two at the same moment. */
  ghost predicate Stamped(s: State) {
    && (forall i :: 0 <= i < |s.deferred| ==> s.deferred[i].at < s.now)
    && forall i, j :: 0 <= i < j < |s.deferred| ==> s.deferred[i].at < s.deferred[j].at
  }

  lemma InHandChange(s: State, r: State, c: Cpu)
    requires Wf(s) && Wf(r) && r.cpus == s.cpus && c in s.cpus && r.local == s.local[c := r.local[c]]
    ensures InHand(r.local, r.cpus) + ListOf(s.local[c]) == InHand(s.local, s.cpus) + ListOf(r.local[c])
  {
    InHandSplit(s.local, s.cpus, c);
    InHandSplit(r.local, r.cpus, c);
    InHandSame(s.local, r.local, s.cpus - {c});
  }

  lemma WaitingTake(slots: seq<seq<Node>>, k: nat)
    requires |slots| == NUM_GEN && k < NUM_GEN
    ensures Waiting(slots[k := []]) + multiset(slots[k]) == Waiting(slots)
  {
  }

  lemma WaitingMore(slots: seq<seq<Node>>, k: nat, n: Node)
    requires |slots| == NUM_GEN && k < NUM_GEN
    ensures Waiting(slots[k := slots[k] + [n]]) == Waiting(slots) + multiset{n}
  {
  }

  /** Items that leave one place for another. */
  lemma Shift(a: multiset<Node>, b: multiset<Node>, c: multiset<Node>, d: multiset<Node>, x: multiset<Node>,
              y: multiset<Node>)
    requires b + x == a && d + y == c + x
    ensures b + d + y == a + c
  {
    forall n
      ensures (b + d + y)[n] == (a + c)[n]
    {
      assert (b + x)[n] == a[n] && (d + y)[n] == (c + x)[n];
    }
  }

  lemma ConservedTake(s: State, c: Cpu)
    requires Wf(s) && Conserved(s) && Enabled(s, Take(c))
    ensures Conserved(DoTake(s, c))
  {
    hide Waiting, InHand;
    var r, x := DoTake(s, c), multiset(s.slots[s.gen % NUM_GEN]);
    InHandChange(s, r, c);
    WaitingTake(s.slots, s.gen % NUM_GEN);
    Shift(Waiting(s.slots), Waiting(r.slots), InHand(s.local, s.cpus), InHand(r.local, r.cpus), x, multiset{});
  }

  lemma ConservedCollect(s: State, c: Cpu)
    requires Wf(s) && Conserved(s) && Enabled(s, Collect(c))
    ensures Conserved(DoCollect(s, c))
  {
    hide Waiting, InHand;
    var r, l := DoCollect(s, c), s.local[c].list;
    assert l == [l[0]] + l[1..];
    InHandChange(s, r, c);
    Leaves(InHand(s.local, s.cpus), InHand(r.local, r.cpus), l[0], multiset(l[1..]));
  }

  lemma Leaves(a: multiset<Node>, b: multiset<Node>, n: Node, rest: multiset<Node>)
    requires b + (multiset{n} + rest) == a + rest
    ensures b + multiset{n} == a
  {
    forall m
      ensures (b + multiset{n})[m] == a[m]
    {
      assert (b + (multiset{n} + rest))[m] == (a + rest)[m];
    }
  }

  lemma ConservedDefer(s: State, id: nat)
    requires Wf(s) && Conserved(s)
    ensures Conserved(DoDefer(s, id))
  {
    hide Waiting, InHand;
    WaitingMore(s.slots, (s.gen + s.ahead) % NUM_GEN, Node(id, s.gen, s.now, s.cpus - s.inactive));
  }

  /** Steps that move no item. */
  lemma StillInPlace(s: State, a: Action)
    requires Wf(s) && Enabled(s, a) && !a.Take? && !a.Collect? && !a.Defer?
    ensures var r := Step(s, a);
            && r.slots == s.slots && r.deferred == s.deferred && r.collected == s.collected
            && r.local == s.local[a.c := r.local[a.c]] && ListOf(r.local[a.c]) == ListOf(s.local[a.c])
  {
    hide Disturbs;
  }

  lemma ConservedStep(s: State, a: Action)
    requires Wf(s) && Conserved(s) && Enabled(s, a)
    ensures Conserved(Step(s, a))
  {
    match a
    case Take(c) => ConservedTake(s, c);
    case Collect(c) => ConservedCollect(s, c);
    case Defer(_, id) => ConservedDefer(s, id);
    case _ =>
      ConservedStill(s, a);
  }

  lemma ConservedStill(s: State, a: Action)
    requires Wf(s) && Conserved(s) && Enabled(s, a) && !a.Take? && !a.Collect? && !a.Defer?
    ensures Conserved(Step(s, a))
  {
    hide Step, Waiting, InHand, ListOf;
    StillInPlace(s, a);
    var r := Step(s, a);
    InHandSame(s.local, r.local, s.cpus);
  }

  lemma StampedStep(s: State, a: Action)
    requires Wf(s) && Stamped(s) && Enabled(s, a)
    ensures Stamped(Step(s, a))
  {
    hide Disturbs;
  }

  lemma {:induction false} InHandNone(local: map<Cpu, Local>, cs: set<Cpu>)
    requires cs <= local.Keys && forall c :: c in cs ==> local[c].Outside?
    ensures InHand(local, cs) == multiset{}
  {
    if cs != {} {
      var c :| c in cs;
      InHandSplit(local, cs, c);
      InHandNone(local, cs - {c});
    }
  }

  lemma {:induction false} ConservedRun(cpus: set<Cpu>, acts: seq<Action>)
    requires Runs(Init(cpus, 2), acts)
    ensures Conserved(After(Init(cpus, 2), acts)) && Stamped(After(Init(cpus, 2), acts))
    decreases |acts|
  {
    hide Step, Enabled, Conserved, Stamped;
    if acts == [] {
      ConservedStart(cpus);
    } else {
      ConservedRun(cpus, acts[..|acts| - 1]);
      ConservedStep(After(Init(cpus, 2), acts[..|acts| - 1]), acts[|acts| - 1]);
      StampedStep(After(Init(cpus, 2), acts[..|acts| - 1]), acts[|acts| - 1]);
    }
  }

  lemma ConservedStart(cpus: set<Cpu>)
    ensures Conserved(Init(cpus, 2)) && Stamped(Init(cpus, 2))
  {
    InHandNone(Init(cpus, 2).local, cpus);
  }

  lemma {:induction false} CountOnce(list: seq<Node>, n: Node)
    requires forall i, j :: 0 <= i < j < |list| ==> list[i].at < list[j].at
    ensures multiset(list)[n] <= 1
  {
    if list != [] {
      var m := |list| - 1;
      assert list == list[..m] + [list[m]];
      CountOnce(list[..m], n);
      if n == list[m] {
        assert n !in list[..m];
      }
    }
  }

  /** In every run each item is collected at most once, and only after it was deferred. */
  lemma CollectedOnce(cpus: set<Cpu>, acts: seq<Action>, n: Node)
    requires Runs(Init(cpus, 2), acts)
    ensures var r := After(Init(cpus, 2), acts);
            multiset(r.collected)[n] <= 1 && (n in r.collected ==> n in r.deferred)
  {
    ConservedRun(cpus, acts);
    var r := After(Init(cpus, 2), acts);
    hide Runs, After, Waiting, InHand;
    CountOnce(r.deferred, n);
    assert multiset(r.collected)[n] <= multiset(r.deferred)[n];
    assert n in r.collected <==> multiset(r.collected)[n] > 0;
    assert n in r.deferred <==> multiset(r.deferred)[n] > 0;
  }
}
