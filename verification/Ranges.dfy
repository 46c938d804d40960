/** The address-range tests of include/lib.h, on 64-bit words that wrap around. */
module Ranges {

  const WORD: nat := 0x1_0000_0000_0000_0000

  /** uval addition. */
  function Add(a: nat, b: nat): nat {
    (a + b) % WORD
  }

  predicate RangeSubset(start1: nat, size1: nat, start2: nat, size2: nat) {
    start1 <= start2 && Add(start2, size2) <= Add(start1, size1)
  }

  predicate RangeContains(start: nat, size: nat, val: nat) {
    RangeSubset(start, size, val, 1)
  }

  predicate RangesConflict(start1: nat, size1: nat, start2: nat, size2: nat) {
    RangeContains(start2, size2, start1) || RangeContains(start1, size1, start2)
  }

  /** A range that does not run past the last address. */
  predicate Fits(start: nat, size: nat) {
    start + size < WORD
  }

  predicate Inside(start: nat, size: nat, x: int) {
    start <= x < start + size
  }

  ghost predicate Overlap(start1: nat, size1: nat, start2: nat, size2: nat) {
    exists x :: Inside(start1, size1, x) && Inside(start2, size2, x)
  }

  /** What the subset test is meant to decide. */
  predicate Contained(start1: nat, size1: nat, start2: nat, size2: nat) {
    start1 <= start2 && start2 + size2 <= start1 + size1
  }

  /** Exactly one of the two ends wraps, and wraps to the other side of the end that does not. */
  predicate Misjudged(start1: nat, size1: nat, start2: nat, size2: nat) {
    && start1 <= start2
    && var end1, end2 := start1 + size1, start2 + size2;
       || (end1 < WORD <= end2 && end2 - WORD <= end1)
       || (end2 < WORD <= end1 && end1 - WORD < end2)
  }

  /** On all words, the subset test is wrong exactly for these ranges; in particular it is right for
      two ranges of which neither wraps. */
  lemma SubsetExactly(start1: nat, size1: nat, start2: nat, size2: nat)
    requires start1 < WORD && size1 < WORD && start2 < WORD && size2 < WORD
    ensures (RangeSubset(start1, size1, start2, size2) <==> Contained(start1, size1, start2, size2))
            <==> !Misjudged(start1, size1, start2, size2)
  {
    AddWraps(start1, size1);
    AddWraps(start2, size2);
    hide Add;
  }

  lemma AddWraps(a: nat, b: nat)
    requires a < WORD && b < WORD
    ensures Add(a, b) == if a + b < WORD then a + b else a + b - WORD
  {
  }

  /** A wrapping request passes for part of a range it is not part of. */
  lemma SubsetFooled()
    ensures RangeSubset(0x1000, 0x1000, 0x1800, WORD - 1) && !Contained(0x1000, 0x1000, 0x1800, WORD - 1)
  {
  }

  /** For ranges that do not wrap and are not empty, the conflict test is overlap. */
  lemma ConflictIsOverlap(start1: nat, size1: nat, start2: nat, size2: nat)
    requires Fits(start1, size1) && Fits(start2, size2)
    ensures Overlap(start1, size1, start2, size2) ==> RangesConflict(start1, size1, start2, size2)
    ensures size1 > 0 && size2 > 0 && RangesConflict(start1, size1, start2, size2) ==>
              Overlap(start1, size1, start2, size2)
  {
    if size1 > 0 && size2 > 0 && RangesConflict(start1, size1, start2, size2) {
      var x := if start1 < start2 then start2 else start1;
      assert Inside(start1, size1, x) && Inside(start2, size2, x);
    }
  }
}
