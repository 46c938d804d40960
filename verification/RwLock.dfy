/** The reader/writer lock of include/atomic.h: one 32-bit word changed by compare-and-swap, every
    load and every swap a step of its own, any number of threads. */
module RwLock {

  const TOP: nat := 0x8000_0000          // the writer's bit
  const WORD: nat := 0x1_0000_0000

  /** Where a thread is. `Loaded` and `LeaveLoaded` hold a value read earlier, perhaps stale. */
  datatype Phase =
    | Idle
    | Acquiring
    | Loaded(val: nat)
    | Reading
    | Leaving
    | LeaveLoaded(val: nat)
    | Claiming
    | Writing

  datatype State = State(word: nat, threads: seq<Phase>)

  datatype Action =
    | WantRead(t: nat)
    | Load(t: nat)
    | SwapRead(t: nat)
    | WantLeave(t: nat)
    | LoadLeave(t: nat)
    | SwapLeave(t: nat)
    | WantWrite(t: nat)
    | SwapWrite(t: nat)
    | ReleaseWrite(t: nat)

  function Low31(word: nat): nat { word % TOP }

  predicate WriteLocked(word: nat) { (word / TOP) % 2 == 1 }

  function ReadLocked(word: nat): nat { Low31(word) }

  ghost predicate Enabled(s: State, a: Action) {
    && a.t < |s.threads|
    && match a
       case WantRead(t) => s.threads[t].Idle?
       case Load(t) => s.threads[t].Acquiring?
       case SwapRead(t) => s.threads[t].Loaded?
       case WantLeave(t) => s.threads[t].Reading?
       case LoadLeave(t) => s.threads[t].Leaving?
       case SwapLeave(t) => s.threads[t].LeaveLoaded?
       case WantWrite(t) => s.threads[t].Idle?
       case SwapWrite(t) => s.threads[t].Claiming?
       case ReleaseWrite(t) => s.threads[t].Writing?
  }

  ghost function Move(s: State, word: nat, t: nat, p: Phase): State
    requires t < |s.threads|
  {
    State(word, s.threads[t := p])
  }

  ghost function Next(s: State, a: Action): State
    requires Enabled(s, a)
  {
    match a
    case WantRead(t) => Move(s, s.word, t, Acquiring)
    case Load(t) => Move(s, s.word, t, Loaded(Low31(s.word)))
    case SwapRead(t) =>
      var val := s.threads[t].val;
      if s.word == val then Move(s, (val + 1) % WORD, t, Reading) else Move(s, s.word, t, Acquiring)
    case WantLeave(t) => Move(s, s.word, t, Leaving)
    case LoadLeave(t) => Move(s, s.word, t, LeaveLoaded(s.word))
    case SwapLeave(t) =>
      var val := s.threads[t].val;
      if s.word == val then Move(s, (val + WORD - 1) % WORD, t, Idle) else Move(s, s.word, t, Leaving)
    case WantWrite(t) => Move(s, s.word, t, Claiming)
    case SwapWrite(t) => if s.word == 0 then Move(s, TOP, t, Writing) else s
    case ReleaseWrite(t) => Move(s, 0, t, Idle)
  }

  ghost function Init(n: nat): State {
    State(0, seq(n, _ => Idle))
  }

  ghost predicate Run(n: nat, acts: seq<Action>)
    decreases |acts|, 0
  {
    acts == [] || (Run(n, acts[..|acts| - 1]) && Enabled(After(n, acts[..|acts| - 1]), acts[|acts| - 1]))
  }

  ghost function After(n: nat, acts: seq<Action>): State
    requires Run(n, acts)
    decreases |acts|, 1
  {
    if acts == [] then Init(n) else Next(After(n, acts[..|acts| - 1]), acts[|acts| - 1])
  }

  // ---------------------------------------------------------------------------------------------
  // Counting holders

  predicate Reads(p: Phase) { p.Reading? || p.Leaving? || p.LeaveLoaded? }

  ghost function Readers(s: seq<Phase>): nat {
    if s == [] then 0 else Readers(s[..|s| - 1]) + if Reads(s[|s| - 1]) then 1 else 0
  }

  ghost function Writers(s: seq<Phase>): nat {
    if s == [] then 0 else Writers(s[..|s| - 1]) + if s[|s| - 1].Writing? then 1 else 0
  }

  lemma {:induction false} CountMove(s: seq<Phase>, t: nat, p: Phase)
    requires t < |s|
    ensures Readers(s[t := p]) == Readers(s) - (if Reads(s[t]) then 1 else 0) + if Reads(p) then 1 else 0
    ensures Writers(s[t := p]) == Writers(s) - (if s[t].Writing? then 1 else 0) + if p.Writing? then 1 else 0
    ensures Readers(s) >= if Reads(s[t]) then 1 else 0
    ensures Writers(s) >= if s[t].Writing? then 1 else 0
  {
    var n := |s| - 1;
    if t < n {
      CountMove(s[..n], t, p);
      assert s[t := p][..n] == s[..n][t := p];
    } else {
      assert s[t := p][..n] == s[..n];
    }
  }

  lemma {:induction false} CountBound(s: seq<Phase>)
    ensures Readers(s) <= |s|
  {
    if s != [] {
      CountBound(s[..|s| - 1]);
    }
  }

  lemma {:induction false} CountNone(s: seq<Phase>)
    requires forall t :: 0 <= t < |s| ==> s[t].Idle?
    ensures Readers(s) == Writers(s) == 0
  {
    if s != [] {
      CountNone(s[..|s| - 1]);
    }
  }

  // ---------------------------------------------------------------------------------------------
  // The word and exclusion

  /** The word is the number of readers, or exactly the writer's bit with one writer alone. */
  ghost predicate Inv(s: State) {
    && (if Writers(s.threads) == 0 then s.word == Readers(s.threads) <= TOP
        else Writers(s.threads) == 1 && Readers(s.threads) == 0 && s.word == TOP)
    && (forall t :: 0 <= t < |s.threads| && s.threads[t].Loaded? ==> s.threads[t].val < TOP)
  }

  lemma StepKeeps(s: State, a: Action)
    requires Inv(s) && Enabled(s, a)
    ensures Inv(Next(s, a))
  {
    hide Readers, Writers;
    CountMove(s.threads, a.t, if a.SwapWrite? && s.word != 0 then s.threads[a.t] else Next(s, a).threads[a.t]);
  }

  lemma {:induction false} RunKeeps(n: nat, acts: seq<Action>)
    requires Run(n, acts)
    ensures Inv(After(n, acts)) && |After(n, acts).threads| == n
  {
    if acts == [] {
      CountNone(Init(n).threads);
    } else {
      RunKeeps(n, acts[..|acts| - 1]);
      StepKeeps(After(n, acts[..|acts| - 1]), acts[|acts| - 1]);
    }
  }

  /** In every run of any number of threads a writer excludes every reader and every other
      writer. */
  lemma Exclusion(n: nat, acts: seq<Action>, t: nat, u: nat)
    requires Run(n, acts) && t < |After(n, acts).threads| && u < |After(n, acts).threads| && t != u
    requires After(n, acts).threads[t].Writing?
    ensures !Reads(After(n, acts).threads[u]) && !After(n, acts).threads[u].Writing?
  {
    RunKeeps(n, acts);
    var s := After(n, acts).threads;
    CountMove(s, t, Idle);
    CountMove(s[t := Idle], u, Idle);
  }

  // ---------------------------------------------------------------------------------------------
  // When the lock can be had

  /** Nobody holds the lock. */
  ghost predicate Free(threads: seq<Phase>) {
    forall t :: 0 <= t < |threads| ==> !Reads(threads[t]) && !threads[t].Writing?
  }

  lemma {:induction false} CountFree(s: seq<Phase>)
    ensures Readers(s) == 0 && Writers(s) == 0 <==> Free(s)
  {
    if s != [] {
      var n := |s| - 1;
      CountFree(s[..n]);
      assert Free(s) <==> Free(s[..n]) && !Reads(s[n]) && !s[n].Writing?;
    }
  }

  /** In every run the writer's swap succeeds exactly when nobody holds the lock. */
  lemma WriteExactly(n: nat, acts: seq<Action>, t: nat)
    requires Run(n, acts) && Enabled(After(n, acts), SwapWrite(t))
    ensures Next(After(n, acts), SwapWrite(t)).threads[t].Writing? <==> Free(After(n, acts).threads)
  {
    hide Run, After;
    RunKeeps(n, acts);
    CountFree(After(n, acts).threads);
  }

  /** In every run a reader's swap succeeds exactly when nobody writes and there are as many readers
      as it found. */
  lemma ReadExactly(n: nat, acts: seq<Action>, t: nat)
    requires Run(n, acts) && Enabled(After(n, acts), SwapRead(t))
    ensures var s := After(n, acts);
            Next(s, SwapRead(t)).threads[t].Reading? <==>
              Writers(s.threads) == 0 && Readers(s.threads) == s.threads[t].val
  {
    hide Run, After;
    RunKeeps(n, acts);
  }

  /** In every run a reader's release goes through exactly when the count is what it read, and then
      takes one reader off. */
  lemma LeaveExactly(n: nat, acts: seq<Action>, t: nat)
    requires Run(n, acts) && Enabled(After(n, acts), SwapLeave(t))
    ensures var s := After(n, acts);
            && (Next(s, SwapLeave(t)).threads[t].Idle? <==> Readers(s.threads) == s.threads[t].val)
            && (Next(s, SwapLeave(t)).threads[t].Idle? ==> Next(s, SwapLeave(t)).word == Readers(s.threads) - 1)
  {
    hide Run, After, Readers, Writers;
    RunKeeps(n, acts);
    CountMove(After(n, acts).threads, t, Idle);
  }

  /** From every reachable state in which nobody holds the lock, any idle thread can write-lock it
      by itself. */
  lemma WriterGetsIn(n: nat, acts: seq<Action>, t: nat)
    requires Run(n, acts) && t < n && |After(n, acts).threads| == n && After(n, acts).threads[t].Idle?
    requires Free(After(n, acts).threads)
    ensures Run(n, acts + [WantWrite(t)] + [SwapWrite(t)])
    ensures var r := After(n, acts + [WantWrite(t)] + [SwapWrite(t)]); t < |r.threads| && r.threads[t].Writing?
  {
    hide Run, After;
    var s := After(n, acts);
    RunMore(n, acts, WantWrite(t));
    var m := acts + [WantWrite(t)];
    RunMore(n, m, SwapWrite(t));
    assert Free(After(n, m).threads);
    WriteExactly(n, m, t);
  }

  /** From every reachable state in which nobody writes and there is room in the count, any idle
      thread can read-lock it by itself. */
  lemma ReaderGetsIn(n: nat, acts: seq<Action>, t: nat)
    requires Run(n, acts) && t < n && |After(n, acts).threads| == n && After(n, acts).threads[t].Idle?
    requires Writers(After(n, acts).threads) == 0 && Readers(After(n, acts).threads) < TOP
    ensures Run(n, acts + [WantRead(t)] + [Load(t)] + [SwapRead(t)])
    ensures var r := After(n, acts + [WantRead(t)] + [Load(t)] + [SwapRead(t)]);
            t < |r.threads| && r.threads[t].Reading?
  {
    RunKeeps(n, acts);
    hide Run, After, Readers, Writers;
    RunMore(n, acts, WantRead(t));
    RunMore(n, acts + [WantRead(t)], Load(t));
    RunMore(n, acts + [WantRead(t)] + [Load(t)], SwapRead(t));
  }

  // ---------------------------------------------------------------------------------------------
  // What the tests of the word say

  /** The word tells writers from readers. */
  ghost predicate Truthful(s: State) {
    (WriteLocked(s.word) <==> Writers(s.threads) > 0) && ReadLocked(s.word) == Readers(s.threads)
  }

  /** k threads in a row become readers. */
  ghost function Crowd(k: nat): seq<Action> {
    if k == 0 then [] else Crowd(k - 1) + [WantRead(k - 1)] + [Load(k - 1)] + [SwapRead(k - 1)]
  }

  lemma RunMore(n: nat, acts: seq<Action>, a: Action)
    requires Run(n, acts) && Enabled(After(n, acts), a)
    ensures Run(n, acts + [a]) && After(n, acts + [a]) == Next(After(n, acts), a)
  {
  }

  /** The first k threads read, the others are idle. */
  ghost function Crowded(n: nat, k: nat): State {
    State(k, seq(n, t => if t < k then Reading else Idle))
  }

  lemma Joins(n: nat, k: nat)
    requires k < n && k < TOP
    ensures var s, a := Crowded(n, k), WantRead(k); Enabled(s, a) && Enabled(Next(s, a), Load(k))
    ensures var m := Next(Next(Crowded(n, k), WantRead(k)), Load(k));
            Enabled(m, SwapRead(k)) && Next(m, SwapRead(k)) == Crowded(n, k + 1)
  {
  }

  lemma {:induction false} CrowdRuns(n: nat, k: nat)
    requires k <= n && k <= TOP
    ensures Run(n, Crowd(k)) && After(n, Crowd(k)) == Crowded(n, k)
  {
    if k == 0 {
      assert Init(n).threads == Crowded(n, 0).threads;
    } else {
      CrowdRuns(n, k - 1);
      Joins(n, k - 1);
      hide Run, After, Next, Enabled, Crowded;
      var c := Crowd(k - 1);
      RunMore(n, c, WantRead(k - 1));
      RunMore(n, c + [WantRead(k - 1)], Load(k - 1));
      RunMore(n, c + [WantRead(k - 1)] + [Load(k - 1)], SwapRead(k - 1));
    }
  }

  lemma TruthfulBelow(n: nat, acts: seq<Action>)
    requires Run(n, acts) && n < TOP
    ensures Truthful(After(n, acts))
  {
    RunKeeps(n, acts);
    CountBound(After(n, acts).threads);
  }

  /** The tests of the word are right in every state of every run exactly when there are fewer
      than 2^31 threads: with 2^31 readers the count is the writer's bit. */
  lemma TruthfulExactly(n: nat)
    ensures (forall acts :: Run(n, acts) ==> Truthful(After(n, acts))) <==> n < TOP
  {
    if n < TOP {
      forall acts | Run(n, acts)
        ensures Truthful(After(n, acts))
      {
        TruthfulBelow(n, acts);
      }
    } else {
      CrowdRuns(n, TOP);
      RunKeeps(n, Crowd(TOP));
      var s := After(n, Crowd(TOP));
      assert s.word == TOP && s.threads[0].Reading?;
      CountMove(s.threads, 0, Idle);
      assert !Truthful(s);
    }
  }
}
