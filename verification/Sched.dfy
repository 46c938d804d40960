/** The slot scheduler of hype/sched.c, for one physical processor. */
module Sched {
  import opened Lists
  import opened Words

  const NUM_SCHED_SLOTS: nat := 64

  type Cpu = nat

  /** The scheduling part of struct cpu. */
  datatype CpuSched = CpuSched(curr: Word, required: Word, desired: Word)

  /** Everything locked_set_sched_params works on: struct hype_scheduler and the CPUs sharing it. */
  datatype Table = Table(owners: seq<Option<Cpu>>, used: Word, locked: Word, cpus: map<Cpu, CpuSched>)

  // ---------------------------------------------------------------------------------------------
  // Rotation of a slot mask

  /** Slot j of the mask rotated k places up. */
  function Rotate(w: Word, k: nat): Word {
    seq(NUM_SCHED_SLOTS, j requires 0 <= j < NUM_SCHED_SLOTS =>
      w[(j + NUM_SCHED_SLOTS - k % NUM_SCHED_SLOTS) % NUM_SCHED_SLOTS])
  }

  /** The C expression for a rotation by r places (sched.c:44 with r = 1, sched.c:134). */
  function RotateWord(w: Word, r: nat): Word
    requires r <= NUM_SCHED_SLOTS
  {
    Or(Shr(w, NUM_SCHED_SLOTS - r), Shl(w, r))
  }

  lemma RotateWordIsRotate(w: Word, r: nat)
    requires r < NUM_SCHED_SLOTS
    ensures RotateWord(w, r) == Rotate(w, r)
  {
  }

  lemma RotateOnce(w: Word, k: nat)
    requires k < NUM_SCHED_SLOTS
    ensures RotateWord(Rotate(w, k), 1) == Rotate(w, k + 1)
  {
    RotateWordIsRotate(Rotate(w, k), 1);
    forall j | 0 <= j < NUM_SCHED_SLOTS
      ensures Rotate(Rotate(w, k), 1)[j] == Rotate(w, k + 1)[j]
    {
      RotatePlace(j, k);
    }
  }

  lemma RotatePlace(j: nat, k: nat)
    requires j < NUM_SCHED_SLOTS && k < NUM_SCHED_SLOTS
    ensures ((j + NUM_SCHED_SLOTS - 1) % NUM_SCHED_SLOTS + NUM_SCHED_SLOTS - k % NUM_SCHED_SLOTS) % NUM_SCHED_SLOTS
            == (j + NUM_SCHED_SLOTS - (k + 1) % NUM_SCHED_SLOTS) % NUM_SCHED_SLOTS
  {
  }

  /** No slot of the mask is among the given ones. */
  ghost predicate Avoids(mask: Word, slots: Word) {
    forall i :: 0 <= i < NUM_SCHED_SLOTS ==> !(mask[i] && slots[i])
  }

  ghost predicate Fits(mask: Word, fixed: Word, k: nat) {
    Avoids(Rotate(mask, k), fixed)
  }

  ghost predicate LeastFit(mask: Word, fixed: Word, k: nat) {
    Fits(mask, fixed, k) && forall j: nat :: j < k ==> !Fits(mask, fixed, j)
  }

  ghost predicate NoFit(mask: Word, fixed: Word) {
    forall j: nat :: j < NUM_SCHED_SLOTS ==> !Fits(mask, fixed, j)
  }

  lemma MaskTest(bits: Word, fixed: Word)
    ensures And(bits, Not(fixed)) == bits <==> Avoids(bits, fixed)
  {
  }

  lemma RotateZero(w: Word)
    ensures Rotate(w, 0) == w
  {
  }

  /** The least rotation of the mask that avoids the fixed slots, and the mask so rotated. */
  method MatchSlot(fixed: Word, orig: Word) returns (rotation: Option<nat>, bits: Word)
    ensures rotation.Some? ==> rotation.value < NUM_SCHED_SLOTS && LeastFit(orig, fixed, rotation.value)
    ensures rotation.Some? ==> bits == Rotate(orig, rotation.value)
    ensures rotation.None? ==> NoFit(orig, fixed) && bits == orig
  {
    hide Rotate, RotateWord, Avoids, And, Not;
    var i := 0;
    bits := orig;
    RotateZero(orig);
    while i < NUM_SCHED_SLOTS
      invariant i <= NUM_SCHED_SLOTS && bits == Rotate(orig, i)
      invariant forall j: nat :: j < i ==> !Fits(orig, fixed, j)
    {
      MaskTest(bits, fixed);
      if And(bits, Not(fixed)) == bits {
        return Some(i), bits;
      }
      RotateOnce(orig, i);
      bits := RotateWord(bits, 1);
      i := i + 1;
    }
    return None, orig;
  }

  // ---------------------------------------------------------------------------------------------
  // What the slot tables keep

  /** owners[i] is q exactly when bit i is in q's current set. */
  ghost predicate OwnersOk(t: Table) {
    && |t.owners| == NUM_SCHED_SLOTS
    && forall i, q :: 0 <= i < NUM_SCHED_SLOTS ==> (t.owners[i] == Some(q) <==> q in t.cpus && t.cpus[q].curr[i])
  }

  ghost predicate UsedOk(t: Table)
    requires |t.owners| == NUM_SCHED_SLOTS
  {
    forall i :: 0 <= i < NUM_SCHED_SLOTS ==> (t.used[i] <==> t.owners[i].Some?)
  }

  ghost predicate Requires(t: Table, q: Cpu, i: nat) {
    q in t.cpus && i < NUM_SCHED_SLOTS && t.cpus[q].required[i]
  }

  /** locked_slots is the union of the required masks, and each of those lies in its owner's
      current set; as a slot has one owner, the union is disjoint. */
  ghost predicate LockedOk(t: Table) {
    && (forall i :: 0 <= i < NUM_SCHED_SLOTS ==> (t.locked[i] <==> exists q :: Requires(t, q, i)))
    && (forall i, q :: 0 <= i < NUM_SCHED_SLOTS && Requires(t, q, i) ==> t.cpus[q].curr[i])
  }

  ghost predicate Ok(t: Table) {
    OwnersOk(t) && UsedOk(t) && LockedOk(t)
  }

  /** Slots that someone other than p holds. */
  ghost function OthersUsed(t: Table, p: Cpu): Word {
    seq(NUM_SCHED_SLOTS, i requires 0 <= i < NUM_SCHED_SLOTS => exists q :: q != p && q in t.cpus && t.cpus[q].curr[i])
  }

  /** Slots that someone other than p has locked. */
  ghost function OthersLocked(t: Table, p: Cpu): Word {
    seq(NUM_SCHED_SLOTS, i requires 0 <= i < NUM_SCHED_SLOTS => exists q :: q != p && Requires(t, q, i))
  }

  lemma OthersUsedMask(t: Table, p: Cpu)
    requires OwnersOk(t) && UsedOk(t) && p in t.cpus
    ensures And(t.used, Not(t.cpus[p].curr)) == OthersUsed(t, p)
  {
    forall i | 0 <= i < NUM_SCHED_SLOTS
      ensures And(t.used, Not(t.cpus[p].curr))[i] == OthersUsed(t, p)[i]
    {
      if t.used[i] && !t.cpus[p].curr[i] {
        assert t.owners[i].Some? && t.owners[i] != Some(p);
      }
      if q :| q != p && q in t.cpus && t.cpus[q].curr[i] {
        assert t.owners[i] == Some(q);
      }
    }
  }

  lemma OthersLockedMask(t: Table, p: Cpu)
    requires Ok(t) && p in t.cpus
    ensures And(t.locked, Not(t.cpus[p].curr)) == OthersLocked(t, p)
  {
    forall i | 0 <= i < NUM_SCHED_SLOTS
      ensures And(t.locked, Not(t.cpus[p].curr))[i] == OthersLocked(t, p)[i]
    {
      if q :| q != p && Requires(t, q, i) {
        assert t.owners[i] == Some(q);
      }
    }
  }

  /** No slot is locked by two CPUs, and nobody's locked slot is another's. */
  lemma LockedDisjoint(t: Table, p: Cpu, q: Cpu, i: nat)
    requires Ok(t) && Requires(t, p, i) && q in t.cpus && q != p
    ensures !Requires(t, q, i) && !t.cpus[q].curr[i] && t.owners[i] == Some(p)
  {
    assert t.owners[i] == Some(p);
    assert t.owners[i] != Some(q);
  }

  // ---------------------------------------------------------------------------------------------
  // Handing slots over

  /** The mask with the given slots all in it, or all out of it. */
  ghost function Hand(mask: Word, slots: Word, gets: bool): Word {
    seq(NUM_SCHED_SLOTS, i requires 0 <= i < NUM_SCHED_SLOTS => if slots[i] then gets else mask[i])
  }

  /** The table with the given slots handed to p, or to nobody. */
  ghost function Assign(t: Table, slots: Word, p: Option<Cpu>): (r: Table)
    requires |t.owners| == NUM_SCHED_SLOTS
    ensures |r.owners| == NUM_SCHED_SLOTS && r.used == t.used && r.locked == t.locked && r.cpus.Keys == t.cpus.Keys
    ensures forall q :: q in t.cpus ==> r.cpus[q] == t.cpus[q].(curr := r.cpus[q].curr)
  {
    t.(owners := seq(NUM_SCHED_SLOTS, i requires 0 <= i < NUM_SCHED_SLOTS => if slots[i] then p else t.owners[i]),
       cpus := map q | q in t.cpus :: t.cpus[q].(curr := Hand(t.cpus[q].curr, slots, p == Some(q))))
  }

  lemma AssignKeepsOwners(t: Table, slots: Word, p: Option<Cpu>)
    requires OwnersOk(t) && (p.Some? ==> p.value in t.cpus)
    ensures OwnersOk(Assign(t, slots, p))
  {
  }

  /** The slots below n. */
  ghost function Below(slots: Word, n: nat): Word {
    seq(NUM_SCHED_SLOTS, i requires 0 <= i < NUM_SCHED_SLOTS => i < n && slots[i])
  }

  /** 1ULL << i */
  function Bit(i: nat): Word {
    Shl([true] + seq(BITS - 1, _ => false), i)
  }

  lemma BitOps(w: Word, i: nat)
    requires i < NUM_SCHED_SLOTS
    ensures And(w, Not(Bit(i))) == w[i := false]
    ensures Or(w, Bit(i)) == w[i := true]
  {
  }

  lemma HandNext(mask: Word, slots: Word, i: nat, gets: bool)
    requires i < NUM_SCHED_SLOTS
    ensures Hand(mask, Below(slots, i + 1), gets) ==
            if slots[i] then Hand(mask, Below(slots, i), gets)[i := gets] else Hand(mask, Below(slots, i), gets)
  {
  }

  /** One pass of the loop, for the current set of q: m is the table so far. */
  ghost function HandOver(m: Table, slots: Word, p: Option<Cpu>, i: nat): Table
    requires OwnersOk(m) && (p.Some? ==> p.value in m.cpus) && i < NUM_SCHED_SLOTS
  {
    if slots[i] && m.owners[i] != p then Acquire(Yield(m, i), p, i) else m
  }

  lemma HandOverCurr(m: Table, slots: Word, p: Option<Cpu>, i: nat, q: Cpu)
    requires OwnersOk(m) && (p.Some? ==> p.value in m.cpus) && i < NUM_SCHED_SLOTS && q in m.cpus
    ensures var r := HandOver(m, slots, p, i);
            && q in r.cpus
            && r.cpus[q] == m.cpus[q].(curr := if slots[i] then m.cpus[q].curr[i := p == Some(q)] else m.cpus[q].curr)
  {
    var w := m.cpus[q].curr;
    assert w[i] <==> m.owners[i] == Some(q);
    BitOps(w, i);
    hide And, Or, Not, Bit, OwnersOk;
  }

  lemma AssignNextOwners(t: Table, slots: Word, p: Option<Cpu>, i: nat)
    requires OwnersOk(t) && (p.Some? ==> p.value in t.cpus) && i < NUM_SCHED_SLOTS
    requires OwnersOk(Assign(t, Below(slots, i), p))
    ensures var r := HandOver(Assign(t, Below(slots, i), p), slots, p, i);
            r == t.(owners := Assign(t, Below(slots, i + 1), p).owners, cpus := r.cpus) && r.cpus.Keys == t.cpus.Keys
  {
    hide Hand, And, Or, Not, Bit;
    var r := HandOver(Assign(t, Below(slots, i), p), slots, p, i);
    assert r.owners == Assign(t, Below(slots, i + 1), p).owners;
  }

  /** Handing over slot i on top of the slots below it. */
  lemma AssignNext(t: Table, slots: Word, p: Option<Cpu>, i: nat)
    requires OwnersOk(t) && (p.Some? ==> p.value in t.cpus) && i < NUM_SCHED_SLOTS
    requires OwnersOk(Assign(t, Below(slots, i), p))
    ensures HandOver(Assign(t, Below(slots, i), p), slots, p, i) == Assign(t, Below(slots, i + 1), p)
  {
    var m, n := Assign(t, Below(slots, i), p), Assign(t, Below(slots, i + 1), p);
    var r := HandOver(m, slots, p, i);
    AssignNextOwners(t, slots, p, i);
    hide Hand, Below, HandOver, OwnersOk;
    forall q | q in t.cpus
      ensures q in r.cpus && r.cpus[q] == n.cpus[q]
    {
      HandOverCurr(m, slots, p, i, q);
      HandNext(t.cpus[q].curr, slots, i, p == Some(q));
    }
    assert r.cpus == n.cpus;
  }

  /** os_yield_slot, when the slot has an owner. */
  ghost function Yield(t: Table, i: nat): (r: Table)
    requires OwnersOk(t) && i < NUM_SCHED_SLOTS
    ensures |r.owners| == NUM_SCHED_SLOTS && r.cpus.Keys == t.cpus.Keys
  {
    if t.owners[i].Some? then
      var q := t.owners[i].value;
      t.(owners := t.owners[i := None], cpus := t.cpus[q := t.cpus[q].(curr := And(t.cpus[q].curr, Not(Bit(i))))])
    else t
  }

  /** os_acquire_slot, when there is someone to acquire it. */
  ghost function Acquire(t: Table, p: Option<Cpu>, i: nat): Table
    requires |t.owners| == NUM_SCHED_SLOTS && i < NUM_SCHED_SLOTS && (p.Some? ==> p.value in t.cpus)
  {
    if p.Some? then
      var q := p.value;
      t.(owners := t.owners[i := p], cpus := t.cpus[q := t.cpus[q].(curr := Or(t.cpus[q].curr, Bit(i)))])
    else t
  }

  // ---------------------------------------------------------------------------------------------
  // Admission

  /** The table once p holds its required slots and nothing else (sched.c:129-147); the masks are
      already rotated. */
  ghost function Settle(t: Table, p: Cpu, req: Word, des: Word): Table
    requires |t.owners| == NUM_SCHED_SLOTS && p in t.cpus
  {
    var used := t.cpus[p].curr;
    var r := Assign(Assign(t, used, None), req, Some(p));
    r.(cpus := r.cpus[p := r.cpus[p].(required := req, desired := des)],
       locked := Or(And(t.locked, Not(And(used, t.cpus[p].required))), req))
  }

  /** And once it holds its desired slots too (sched.c:148-151). */
  ghost function Admit(t: Table, p: Cpu, req: Word, des: Word): Table
    requires |t.owners| == NUM_SCHED_SLOTS && p in t.cpus
  {
    var r := Settle(t, p, req, des);
    var gain := And(des, Not(r.locked));
    Assign(r, gain, Some(p)).(used := Or(And(t.used, Not(t.cpus[p].curr)), Or(gain, req)))
  }

  /** Who holds what afterwards: p its required slots and the desired ones nobody else has locked;
      everyone else what it had less what p now holds. */
  ghost predicate Admitted(t: Table, p: Cpu, req: Word, des: Word, r: Table)
    requires p in t.cpus
  {
    && r.cpus.Keys == t.cpus.Keys
    && r.cpus[p].required == req && r.cpus[p].desired == des
    && (forall i :: 0 <= i < NUM_SCHED_SLOTS ==>
                      (r.cpus[p].curr[i] <==> req[i] || (des[i] && !OthersLocked(t, p)[i])))
    && (forall q :: q in t.cpus && q != p ==>
                      && r.cpus[q].required == t.cpus[q].required && r.cpus[q].desired == t.cpus[q].desired
                      && forall i :: 0 <= i < NUM_SCHED_SLOTS ==>
                                       (r.cpus[q].curr[i] <==> t.cpus[q].curr[i] && !r.cpus[p].curr[i]))
  }

  /** The lock mask after the old required slots of p are dropped and the new ones added. */
  lemma AdmitLocked(t: Table, p: Cpu, req: Word, i: nat)
    requires Ok(t) && p in t.cpus && i < NUM_SCHED_SLOTS
    ensures Or(And(t.locked, Not(And(t.cpus[p].curr, t.cpus[p].required))), req)[i]
            <==> req[i] || OthersLocked(t, p)[i]
  {
    if q :| q != p && Requires(t, q, i) {
      LockedDisjoint(t, q, p, i);
    }
  }

  lemma SettleOwners(t: Table, p: Cpu, req: Word, des: Word)
    requires OwnersOk(t) && p in t.cpus
    ensures OwnersOk(Settle(t, p, req, des))
  {
  }

  lemma SettleCurr(t: Table, p: Cpu, req: Word, des: Word, q: Cpu, i: nat)
    requires OwnersOk(t) && p in t.cpus && q in t.cpus && i < NUM_SCHED_SLOTS
    ensures var r := Settle(t, p, req, des);
            && q in r.cpus
            && (r.cpus[q].curr[i] <==> if q == p then req[i] else t.cpus[q].curr[i] && !req[i])
            && (q != p ==> r.cpus[q] == t.cpus[q].(curr := r.cpus[q].curr))
  {
    if q != p && t.cpus[q].curr[i] {
      assert t.owners[i] == Some(q);
      assert t.owners[i] != Some(p);
    }
  }

  lemma AdmitOutcome(t: Table, p: Cpu, req: Word, des: Word)
    requires Ok(t) && p in t.cpus
    ensures Admitted(t, p, req, des, Admit(t, p, req, des)) && OwnersOk(Admit(t, p, req, des))
  {
    var m, r := Settle(t, p, req, des), Admit(t, p, req, des);
    var gain := And(des, Not(m.locked));
    SettleOwners(t, p, req, des);
    AssignKeepsOwners(m, gain, Some(p));
    forall q, i | q in t.cpus && 0 <= i < NUM_SCHED_SLOTS
      ensures r.cpus[q].curr[i] <==> if q == p then req[i] || gain[i] else t.cpus[q].curr[i] && !req[i] && !gain[i]
      ensures q != p ==> r.cpus[q] == t.cpus[q].(curr := r.cpus[q].curr)
    {
      SettleCurr(t, p, req, des, q, i);
    }
    forall i | 0 <= i < NUM_SCHED_SLOTS
      ensures gain[i] <==> des[i] && !req[i] && !OthersLocked(t, p)[i]
    {
      AdmitLocked(t, p, req, i);
    }
    hide Settle, OthersLocked, OwnersOk, Assign, LockedOk, UsedOk;
  }

  lemma AdmitKeepsLocked(t: Table, p: Cpu, req: Word, des: Word)
    requires Ok(t) && p in t.cpus && Avoids(req, OthersLocked(t, p))
    ensures LockedOk(Admit(t, p, req, des))
  {
    var r := Admit(t, p, req, des);
    AdmitOutcome(t, p, req, des);
    forall i | 0 <= i < NUM_SCHED_SLOTS
      ensures r.locked[i] <==> exists q :: Requires(r, q, i)
    {
      AdmitLocked(t, p, req, i);
      assert Requires(r, p, i) <==> req[i];
      assert forall q :: q != p ==> (Requires(r, q, i) <==> Requires(t, q, i));
    }
    forall i, q | 0 <= i < NUM_SCHED_SLOTS && Requires(r, q, i)
      ensures r.cpus[q].curr[i]
    {
      if q != p {
        assert Requires(t, q, i) && OthersLocked(t, p)[i];
      }
    }
  }

  lemma AdmitKeepsUsed(t: Table, p: Cpu, req: Word, des: Word)
    requires Ok(t) && p in t.cpus
    ensures OwnersOk(Admit(t, p, req, des)) && UsedOk(Admit(t, p, req, des))
  {
    var r := Admit(t, p, req, des);
    AdmitOutcome(t, p, req, des);
    forall i | 0 <= i < NUM_SCHED_SLOTS
      ensures r.used[i] <==> r.owners[i].Some?
    {
      AdmitLocked(t, p, req, i);
      AdmitUsedSlot(t, p, req, des, i);
    }
  }

  lemma AdmitUsedSlot(t: Table, p: Cpu, req: Word, des: Word, i: nat)
    requires OwnersOk(t) && UsedOk(t) && p in t.cpus && i < NUM_SCHED_SLOTS
    ensures var r := Admit(t, p, req, des);
            r.used[i] <==> r.owners[i].Some?
  {
    assert t.owners[i] == Some(p) <==> t.cpus[p].curr[i];
  }

  /** Admission keeps every table invariant: in particular nobody else loses a locked slot. */
  lemma AdmitKeeps(t: Table, p: Cpu, req: Word, des: Word)
    requires Ok(t) && p in t.cpus && Avoids(req, OthersLocked(t, p))
    ensures Ok(Admit(t, p, req, des)) && Admitted(t, p, req, des, Admit(t, p, req, des))
  {
    AdmitOutcome(t, p, req, des);
    AdmitKeepsLocked(t, p, req, des);
    AdmitKeepsUsed(t, p, req, des);
  }

  /** A rotation that leaves used slots alone leaves locked ones alone. */
  lemma UsedFitIsLockedFit(t: Table, p: Cpu, mask: Word)
    requires Ok(t) && p in t.cpus && Avoids(mask, OthersUsed(t, p))
    ensures Avoids(mask, OthersLocked(t, p))
  {
  }

  /** The rotation used: the least one that disturbs no used slot if there is one, otherwise the
      least one that disturbs no slot locked by others. */
  ghost predicate Chosen(t: Table, p: Cpu, required: Word, k: nat) {
    && k < NUM_SCHED_SLOTS
    && if NoFit(required, OthersUsed(t, p)) then LeastFit(required, OthersLocked(t, p), k)
       else LeastFit(required, OthersUsed(t, p), k)
  }

  class Scheduler {
    var owners: array<Option<Cpu>>
    var used: Word
    var locked: Word
    var currSlot: nat
    var cpus: map<Cpu, CpuSched>
    var runnable: set<Cpu>
    var lpid: map<Cpu, nat>
    var nextLpid: map<Cpu, nat>

    constructor (ids: set<Cpu>, lpid: map<Cpu, nat>)
      requires lpid.Keys == ids
      ensures Ok(View()) && cpus.Keys == ids && currSlot == 0 && fresh(owners)
      ensures Turns()
    {
      owners := new Option<Cpu>[NUM_SCHED_SLOTS](_ => None);
      used, locked, currSlot := Zero(), Zero(), 0;
      cpus := map p | p in ids :: CpuSched(Zero(), Zero(), Zero());
      runnable, this.lpid, nextLpid := {}, lpid, map p | p in ids :: 0;
    }

    /** What sched_next_os needs besides the tables. */
    ghost predicate Turns()
      reads this
    {
      owners.Length == NUM_SCHED_SLOTS && currSlot < NUM_SCHED_SLOTS && lpid.Keys == nextLpid.Keys == cpus.Keys
    }

    ghost function View(): Table
      reads this, owners
    {
      Table(owners[..], used, locked, cpus)
    }

    method SetSlotOwners(slots: Word, p: Option<Cpu>)
      requires OwnersOk(View()) && (p.Some? ==> p.value in cpus)
      modifies owners, `cpus
      ensures View() == Assign(old(View()), slots, p)
    {
      hide Bit, And, Or, Not, Below;
      ghost var t := View();
      AssignNothing(t, slots, p);
      var i := 0;
      while i < NUM_SCHED_SLOTS
        invariant i <= NUM_SCHED_SLOTS && owners == old(owners)
        invariant View() == Assign(t, Below(slots, i), p)
      {
        ghost var m := View();
        AssignKeepsOwners(t, Below(slots, i), p);
        if slots[i] && owners[i] != p {
          if owners[i].Some? {
            var q := owners[i].value;
            cpus := cpus[q := cpus[q].(curr := And(cpus[q].curr, Not(Bit(i))))];
            owners[i] := None;
          }
          assert View() == Yield(m, i);
          if p.Some? {
            owners[i] := p;
            cpus := cpus[p.value := cpus[p.value].(curr := Or(cpus[p.value].curr, Bit(i)))];
          }
          assert View() == Acquire(Yield(m, i), p, i);
        }
        assert View() == HandOver(m, slots, p, i);
        AssignNext(t, slots, p, i);
        i := i + 1;
      }
      AssignAll(slots);
    }

    /** Gives up what p has, then takes its required and desired slots (sched.c:129-151). */
    method Install(p: Cpu, req: Word, des: Word)
      requires OwnersOk(View()) && p in cpus
      modifies owners, `used, `locked, `cpus
      ensures View() == Admit(old(View()), p, req, des)
    {
      hide And, Or, Not, Assign, OwnersOk;
      ghost var t := View();
      var use := cpus[p].curr;
      SetSlotOwners(use, None);
      AssignKeepsOwners(t, use, None);
      SetSlotOwners(req, Some(p));

      locked := And(locked, Not(And(use, cpus[p].required)));
      used := And(used, Not(use));
      cpus := cpus[p := cpus[p].(required := req, desired := des)];
      locked := Or(locked, req);
      ghost var m := View();
      assert m == Settle(t, p, req, des).(used := used);
      SettleOwners(t, p, req, des);
      OwnersFrame(Settle(t, p, req, des), m);
      var gain := And(des, Not(locked));
      SetSlotOwners(gain, Some(p));
      AssignFrame(Settle(t, p, req, des), m, gain, Some(p));
      used := Or(used, Or(gain, req));
    }

    /** Succeeds (0) exactly when some rotation of the required mask avoids every slot locked by
        others; otherwise returns 64 and changes nothing. */
    method SetSchedParams(p: Cpu, required: Word, desired: Word) returns (r: nat, ghost k: nat)
      requires Ok(View()) && p in cpus
      modifies owners, `used, `locked, `cpus
      ensures Ok(View())
      ensures r == 0 || r == NUM_SCHED_SLOTS
      ensures r == NUM_SCHED_SLOTS <==> NoFit(required, OthersLocked(old(View()), p))
      ensures r == NUM_SCHED_SLOTS ==> View() == old(View())
      ensures r == 0 ==> Chosen(old(View()), p, required, k)
      ensures r == 0 ==> Admitted(old(View()), p, Rotate(required, k), Rotate(desired, k), View())
    {
      hide And, Not, Rotate, RotateWord, OwnersOk, LockedOk, UsedOk, OthersLocked, OthersUsed, Avoids, Admitted, Admit;
      ghost var t := View();
      var use := cpus[p].curr;
      OthersUsedMask(t, p);
      OthersLockedMask(t, p);
      var rotation, req := MatchSlot(And(used, Not(use)), required);
      if rotation.None? {
        rotation, req := MatchSlot(And(locked, Not(use)), required);
      } else {
        UsedFitIsLockedFit(t, p, Rotate(required, rotation.value));
      }
      if rotation.None? {
        return NUM_SCHED_SLOTS, 0;
      }
      assert Fits(required, OthersLocked(t, p), rotation.value);
      RotateWordIsRotate(desired, rotation.value);
      AdmitKeeps(t, p, req, Rotate(desired, rotation.value));
      Install(p, req, RotateWord(desired, rotation.value));
      return 0, rotation.value;
    }

    /** The CPU to run next: the target of a directed yield, which leaves the turn where it is;
        otherwise the owner of the first slot after the current one whose owner is runnable;
        otherwise the caller. `cpuOf` is os_lookup together with the partition's CPU here. */
    method NextOs(cur: Cpu, cpuOf: map<nat, Cpu>) returns (next: Cpu, ghost call: Call)
      requires Turns() && cur in cpus
      modifies `currSlot
      ensures Turns() && currSlot == SlotAfter(owners[..], old(currSlot), call)
      ensures call == if nextLpid[cur] != lpid[cur] && nextLpid[cur] != 0 && nextLpid[cur] in cpuOf
                      then Directed else Turn(runnable)
      ensures call.Directed? ==> next == cpuOf[nextLpid[cur]]
      ensures call.Turn? ==>
                if First(owners[..], runnable, old(currSlot), 1).Some?
                then owners[currSlot] == Some(next) && next in runnable
                else next == cur
    {
      var target := nextLpid[cur];
      if target != lpid[cur] && target != 0 && target in cpuOf {
        return cpuOf[target], Directed;
      }
      var slot := Scan();
      if slot.None? {
        return cur, Turn(runnable);
      }
      currSlot := slot.value;
      return owners[currSlot].value, Turn(runnable);
    }

    /** The scan over the slots (sched.c:210-222). */
    method Scan() returns (slot: Option<nat>)
      requires Turns()
      ensures match First(owners[..], runnable, currSlot, 1)
              case None => slot.None?
              case Some(d) => slot == Some(Ahead(currSlot, d))
    {
      hide Ahead, First;
      ghost var o := owners[..];
      var s := currSlot;
      AheadZero(s);
      var i := 0;
      while i < NUM_SCHED_SLOTS
        invariant i <= NUM_SCHED_SLOTS && s == Ahead(currSlot, i)
        invariant First(o, runnable, currSlot, 1) == First(o, runnable, currSlot, i + 1)
      {
        AheadNext(currSlot, i);
        FirstNext(o, runnable, currSlot, i + 1);
        s := (s + 1) % NUM_SCHED_SLOTS;
        if owners[s].Some? && owners[s].value in runnable {
          return Some(s);
        }
        i := i + 1;
      }
      FirstNext(o, runnable, currSlot, NUM_SCHED_SLOTS + 1);
      return None;
    }
  }

  lemma AheadZero(slot: nat)
    requires slot < NUM_SCHED_SLOTS
    ensures Ahead(slot, 0) == slot
  {
  }

  lemma AheadNext(slot: nat, d: nat)
    ensures (Ahead(slot, d) + 1) % NUM_SCHED_SLOTS == Ahead(slot, d + 1)
  {
  }

  lemma FirstNext(owners: seq<Option<Cpu>>, runnable: set<Cpu>, curr: nat, d: nat)
    requires |owners| == NUM_SCHED_SLOTS && 1 <= d <= NUM_SCHED_SLOTS + 1
    ensures First(owners, runnable, curr, d) ==
            if d > NUM_SCHED_SLOTS then None
            else if Eligible(owners, runnable, Ahead(curr, d)) then Some(d)
            else First(owners, runnable, curr, d + 1)
  {
  }

  lemma OwnersFrame(t: Table, r: Table)
    requires OwnersOk(t) && r == t.(used := r.used)
    ensures OwnersOk(r)
  {
  }

  lemma AssignFrame(t: Table, r: Table, slots: Word, p: Option<Cpu>)
    requires |t.owners| == NUM_SCHED_SLOTS && r == t.(used := r.used)
    ensures Assign(r, slots, p) == Assign(t, slots, p).(used := r.used)
  {
  }

  lemma AssignNothing(t: Table, slots: Word, p: Option<Cpu>)
    requires OwnersOk(t)
    ensures t == Assign(t, Below(slots, 0), p)
  {
    assert t.owners == Assign(t, Below(slots, 0), p).owners;
    forall q | q in t.cpus
      ensures t.cpus[q] == Assign(t, Below(slots, 0), p).cpus[q]
    {
      assert t.cpus[q].curr == Assign(t, Below(slots, 0), p).cpus[q].curr;
    }
    assert t.cpus == Assign(t, Below(slots, 0), p).cpus;
  }

  lemma AssignAll(slots: Word)
    ensures Below(slots, NUM_SCHED_SLOTS) == slots
  {
  }

  // ---------------------------------------------------------------------------------------------
  // Taking turns

  function Ahead(slot: nat, d: nat): (r: nat)
    ensures r < NUM_SCHED_SLOTS
  {
    (slot + d) % NUM_SCHED_SLOTS
  }

  /** The distance, at least d, to the first slot ahead whose owner is runnable. */
  ghost function First(owners: seq<Option<Cpu>>, runnable: set<Cpu>, curr: nat, d: nat): (r: Option<nat>)
    requires |owners| == NUM_SCHED_SLOTS && 1 <= d <= NUM_SCHED_SLOTS + 1
    ensures r.Some? ==> d <= r.value <= NUM_SCHED_SLOTS && Eligible(owners, runnable, Ahead(curr, r.value))
    ensures forall e :: d <= e <= NUM_SCHED_SLOTS && (r.None? || e < r.value) ==>
                        !Eligible(owners, runnable, Ahead(curr, e))
    decreases NUM_SCHED_SLOTS + 1 - d
  {
    if d > NUM_SCHED_SLOTS then None
    else if Eligible(owners, runnable, Ahead(curr, d)) then Some(d)
    else First(owners, runnable, curr, d + 1)
  }

  ghost predicate Eligible(owners: seq<Option<Cpu>>, runnable: set<Cpu>, slot: nat)
    requires |owners| == NUM_SCHED_SLOTS && slot < NUM_SCHED_SLOTS
  {
    owners[slot].Some? && owners[slot].value in runnable
  }

  /** One call of sched_next_os: a directed yield, or a turn with the CPUs runnable at that time. */
  datatype Call = Directed | Turn(runnable: set<Cpu>)

  ghost function SlotAfter(owners: seq<Option<Cpu>>, curr: nat, c: Call): (r: nat)
    requires |owners| == NUM_SCHED_SLOTS && curr < NUM_SCHED_SLOTS
    ensures r < NUM_SCHED_SLOTS
  {
    match c
    case Directed => curr
    case Turn(runnable) =>
      match First(owners, runnable, curr, 1)
      case None => curr
      case Some(d) => Ahead(curr, d)
  }

  /** Some turn among the calls goes to p. */
  ghost predicate GetsTurn(owners: seq<Option<Cpu>>, curr: nat, calls: seq<Call>, p: Cpu)
    requires |owners| == NUM_SCHED_SLOTS && curr < NUM_SCHED_SLOTS
    decreases |calls|
  {
    calls != [] &&
    (var next := SlotAfter(owners, curr, calls[0]);
     (calls[0].Turn? && p in calls[0].runnable && owners[next] == Some(p)) || GetsTurn(owners, next, calls[1..], p))
  }

  ghost function Turns(calls: seq<Call>): nat {
    if calls == [] then 0 else (if calls[0].Turn? then 1 else 0) + Turns(calls[1..])
  }

  /** How many slots ahead, 1 to 64, a slot is. */
  ghost function Distance(curr: nat, slot: nat): (d: nat)
    requires curr < NUM_SCHED_SLOTS && slot < NUM_SCHED_SLOTS
    ensures 1 <= d <= NUM_SCHED_SLOTS && Ahead(curr, d) == slot
  {
    if slot > curr then slot - curr else slot + NUM_SCHED_SLOTS - curr
  }

  /** A turn that does not reach the slot of a runnable CPU brings it closer. */
  lemma TurnComesCloser(owners: seq<Option<Cpu>>, runnable: set<Cpu>, curr: nat, slot: nat)
    requires |owners| == NUM_SCHED_SLOTS && curr < NUM_SCHED_SLOTS && slot < NUM_SCHED_SLOTS
    requires Eligible(owners, runnable, slot)
    ensures var next := SlotAfter(owners, curr, Turn(runnable));
            next == slot || Distance(next, slot) < Distance(curr, slot)
  {
    hide Ahead, Distance, Eligible;
    var d := Distance(curr, slot);
    var e := First(owners, runnable, curr, 1);
    assert Eligible(owners, runnable, Ahead(curr, d));
    assert e.Some? && e.value <= d;
    AheadCloser(curr, slot, e.value);
  }

  lemma AheadCloser(curr: nat, slot: nat, e: nat)
    requires curr < NUM_SCHED_SLOTS && slot < NUM_SCHED_SLOTS && 1 <= e <= Distance(curr, slot)
    ensures Ahead(curr, e) == slot || Distance(Ahead(curr, e), slot) < Distance(curr, slot)
  {
  }

  /** A CPU that owns a slot and stays runnable is chosen within as many turns as its slot is
      ahead - at most 64 - whatever the others do and however many directed yields come between. */
  lemma {:induction false} BoundedWaiting(owners: seq<Option<Cpu>>, curr: nat, calls: seq<Call>, p: Cpu, slot: nat)
    requires |owners| == NUM_SCHED_SLOTS && curr < NUM_SCHED_SLOTS && slot < NUM_SCHED_SLOTS
    requires owners[slot] == Some(p) && forall c :: c in calls && c.Turn? ==> p in c.runnable
    requires Turns(calls) >= Distance(curr, slot)
    ensures GetsTurn(owners, curr, calls, p)
    decreases |calls|
  {
    var next := SlotAfter(owners, curr, calls[0]);
    if calls[0].Turn? {
      TurnComesCloser(owners, calls[0].runnable, curr, slot);
    }
    if !(calls[0].Turn? && next == slot) {
      BoundedWaiting(owners, next, calls[1..], p, slot);
    }
  }
}
