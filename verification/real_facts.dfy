/** Small facts about division of reals, kept apart so that each is proved in an empty context. */
module RealFacts {

  lemma DivSelf(x: real)
    requires x != 0.0
    ensures x / x == 1.0
  {
  }

  lemma DivCancel(x: real, y: real)
    requires y != 0.0
    ensures (x / y) * y == x
  {
  }

  /** q * y == x, kept as one atom so that the product is not expanded. */
  predicate ProductIs(q: real, y: real, x: real)
  {
    q * y == x
  }

  /** A quotient times its divisor gives back the dividend, and it vanishes exactly when the dividend does. */
  lemma QuotientTimesDivisor(q: real, x: real, y: real)
    requires y != 0.0 && q == x / y
    ensures ProductIs(q, y, x)
    ensures q == 0.0 <==> x == 0.0
  {
  }

  /** A quotient is one exactly when dividend and divisor agree. */
  lemma QuotientIsOne(q: real, x: real, y: real)
    requires y != 0.0 && q == x / y
    ensures q == 1.0 <==> x == y
  {
    DivCancel(x, y);
  }

  lemma DivByMul(x: real, y: real, z: real)
    requires y != 0.0 && z * y == x
    ensures x / y == z
  {
  }

  lemma MulCancel(x: real, y: real, z: real)
    requires z != 0.0 && x * z == y * z
    ensures x == y
  {
  }

  lemma MulPositive(x: real, y: real)
    requires x > 0.0 && y > 0.0
    ensures x * y > 0.0
  {
  }

  /** Cancels two nonzero factors: from l*n == i, i*m == h*n and g*m == h follows l == g. */
  lemma CancelTwo(l: real, g: real, n: real, m: real, i: real, h: real)
    requires n != 0.0 && m != 0.0 && l * n == i && i * m == h * n && g * m == h
    ensures l == g
  {
    assert (l * n) * m == h * n;
    assert (g * m) * n == h * n;
    assert (l - g) * (n * m) == 0.0;
  }

  /** Two fractions of n that add up to n are complements. */
  lemma OneMinus(p: real, q: real, n: real)
    requires n != 0.0 && p * n + q * n == n
    ensures 1.0 - p == q
  {
    assert (1.0 - p - q) * n == 0.0;
  }

  /** Converting a product of counts to a real multiplies the converted counts. */
  lemma CastMul(x: nat, y: nat)
    ensures (x * y) as real == (x as real) * (y as real)
  {
  }

  /** Fractions over the same denominator add by their numerators. */
  lemma DivAdd(x: real, y: real, n: real)
    requires n != 0.0
    ensures x / n + y / n == (x + y) / n
  {
  }

  /**
   * The odds x = (1 - P)/P of a share P other than 0 and 1 balance it: x P is
   * the complement 1 - P, and 1/x times the complement is P again.
   */
  lemma OddsBalance(P: real, x: real)
    requires P != 0.0 && P != 1.0 && x == (1.0 - P) / P
    ensures x != 0.0
    ensures x * P == 1.0 - P
    ensures (1.0 / x) * (1.0 - P) == P
  {
    DivCancel(1.0 - P, P);
    DivCancel(1.0, x);
    assert (1.0 / x) * (1.0 - P) == (1.0 / x) * (x * P);
  }

  lemma MulAssoc(x: real, y: real, z: real)
    ensures (x * y) * z == x * (y * z)
  {
  }
}
