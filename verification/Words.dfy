/** Machine words as their 64 bits, least significant first, with the C operators on them. */
module Words {

  const BITS: nat := 64

  type Word = w: seq<bool> | |w| == BITS witness seq(BITS, _ => false)

  function Zero(): (w: Word)
    ensures forall i :: 0 <= i < BITS ==> !w[i]
  {
    seq(BITS, _ => false)
  }

  function Ones(): (w: Word)
    ensures forall i :: 0 <= i < BITS ==> w[i]
  {
    seq(BITS, _ => true)
  }

  function And(a: Word, b: Word): Word {
    seq(BITS, i requires 0 <= i < BITS => a[i] && b[i])
  }

  function Or(a: Word, b: Word): Word {
    seq(BITS, i requires 0 <= i < BITS => a[i] || b[i])
  }

  function Xor(a: Word, b: Word): Word {
    seq(BITS, i requires 0 <= i < BITS => a[i] != b[i])
  }

  function Not(a: Word): Word {
    seq(BITS, i requires 0 <= i < BITS => !a[i])
  }

  /** a << k; shifting by the width or more gives zero. */
  function Shl(a: Word, k: nat): Word {
    seq(BITS, i requires 0 <= i < BITS => i >= k && a[i - k])
  }

  /** a >> k; shifting by the width or more gives zero. */
  function Shr(a: Word, k: nat): Word {
    seq(BITS, i requires 0 <= i < BITS => i + k < BITS && a[i + k])
  }
}
