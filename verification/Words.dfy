/** Masks and shifts of unsigned words, as arithmetic. */
module Words {

  function Pow2(k: nat): (n: nat)
    ensures n >= 1
  {
    if k == 0 then 1 else 2 * Pow2(k - 1)
  }

  /** `a & b`, bit by bit. */
  function And(a: nat, b: nat): (n: nat)
  {
    if a == 0 || b == 0 then 0 else 2 * And(a / 2, b / 2) + (if a % 2 == 1 && b % 2 == 1 then 1 else 0)
  }

  /** `a >> k` */
  function Shr(a: nat, k: nat): (n: nat)
    decreases k
  {
    if k == 0 then a else Shr(a / 2, k - 1)
  }

  lemma AndStep(a: nat, p: nat)
    requires p >= 1
    ensures And(a, 2 * p - 1) == 2 * And(a / 2, p - 1) + a % 2
  {
    assert (2 * p - 1) / 2 == p - 1 && (2 * p - 1) % 2 == 1;
  }

  lemma DoubleUp(a: nat, q: nat, p: nat, r: nat)
    requires a / 2 == q * p + r
    ensures a == q * (2 * p) + (2 * r + a % 2)
  {
    assert q * (2 * p) == 2 * (q * p);
  }

  /** Masking with one less than a power of two is the remainder, shifting the
      quotient: `a == (a >> k) * 2^k + (a & (2^k - 1))`. */
  lemma {:induction false} MaskAndShift(a: nat, k: nat)
    ensures And(a, Pow2(k) - 1) < Pow2(k)
    ensures a == Shr(a, k) * Pow2(k) + And(a, Pow2(k) - 1)
    decreases k
  {
    if k == 0 {
      assert And(a, 0) == 0;
    } else {
      var p := Pow2(k - 1);
      MaskAndShift(a / 2, k - 1);
      assert Pow2(k) == 2 * p && Shr(a, k) == Shr(a / 2, k - 1);
      AndStep(a, p);
      hide And, Shr, Pow2;
      DoubleUp(a, Shr(a / 2, k - 1), p, And(a / 2, p - 1));
    }
  }
}
