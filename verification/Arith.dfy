/** Division facts about a symbolic divisor, which the solver does not find unaided. */
module Arith {

  lemma MulAtLeast(k: int, d: nat)
    ensures k >= 1 ==> k * d >= d
    ensures k <= -1 ==> k * d + d <= 0
  {
  }

  lemma DivModUnique(x: nat, d: nat, q: nat, r: nat)
    requires d > 0 && r < d && x == q * d + r
    ensures x / d == q && x % d == r
  {
    var q', r' := x / d, x % d;
    var k := q - q';
    assert k * d == r' - r by {
      assert x == q' * d + r';
      assert k * d == q * d - q' * d;
    }
    MulAtLeast(k, d);
  }

  lemma AddMultiple(x: nat, d: nat, k: nat)
    requires d > 0
    ensures (x + k * d) % d == x % d && (x + k * d) / d == x / d + k
  {
    var q := x / d;
    assert x == q * d + x % d;
    assert x + k * d == (q + k) * d + x % d;
    DivModUnique(x + k * d, d, q + k, x % d);
  }

  lemma Multiple(k: nat, d: nat)
    requires d > 0
    ensures (k * d) % d == 0 && (k * d) / d == k
  {
    AddMultiple(0, d, k);
  }

  /** Sums of multiples are multiples. */
  lemma AddMod(x: nat, y: nat, d: nat)
    requires d > 0 && y % d == 0
    ensures (x + y) % d == x % d
  {
    assert y == y / d * d;
    AddMultiple(x, d, y / d);
  }

  /** Two numbers with the same remainder are a multiple of the divisor apart. */
  lemma SameRemainder(x: nat, y: nat, d: nat)
    requires d > 0 && x % d == y % d && x < y
    ensures (y - x) % d == 0 && y >= x + d
  {
    var k := y / d - x / d;
    assert y - x == k * d by {
      assert x == x / d * d + x % d && y == y / d * d + y % d;
    }
    MulAtLeast(k, d);
    Multiple(k, d);
  }

  lemma RoundUp(x: nat, d: nat)
    requires d > 0
    ensures var r := (x + d - 1) / d * d; x <= r < x + d && r % d == 0
  {
  }
}
