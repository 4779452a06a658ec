/** Small facts about multiplication that the counting proofs use. */
module Arithmetic {

  lemma MultiplySuccessor(n: int, m: int, b: int)
    requires n == m + 1
    ensures n * b == m * b + b
  {
  }

  lemma MultiplyMonotone(n: nat, a: int, b: int)
    requires a <= b
    ensures n * a <= n * b
  {
  }

  /** With a positive factor `b`, `a * b` exceeds `b` exactly when `a` exceeds 1. */
  lemma MultiplyExceeds(a: nat, b: int)
    requires b > 0
    ensures a * b > b <==> a > 1
  {
    if a > 1 {
      MultiplyMonotone(b as nat, 2, a);
      assert b * a >= 2 * b;
    } else {
      MultiplyMonotone(b as nat, a, 1);
    }
  }

  /** The integer product carries over to the reals. */
  lemma {:induction false} CastProduct(a: nat, b: nat)
    ensures (a * b) as real == a as real * b as real
  {
    if a > 0 {
      CastProduct(a - 1, b);
      MultiplySuccessor(a, a - 1, b);
    }
  }
}
