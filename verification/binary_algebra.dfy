/**
 * Rational identities for a two-class table [[a, b], [c, d]] (rows predicted,
 * columns observed): both the Peirce and the Gerrity score reduce to
 * (ad - bc) / ((a + c)(b + d)). Kept free of the table definitions so that the
 * arithmetic is proved in a small context.
 */
module BinaryAlgebra {
  import opened RealFacts

  /** (ad - bc) / ((a + c)(b + d)): the common two-class value of the Peirce and Gerrity scores. */
  function ClosedForm(a: real, b: real, c: real, d: real): real
    requires a + c > 0.0 && b + d > 0.0
  {
    MulPositive(a + c, b + d);
    (a * d - b * c) / ((a + c) * (b + d))
  }

  /** The two polynomial identities behind the two-class Peirce closed form. */
  lemma PeircePolynomials(a: real, b: real, c: real, d: real)
    ensures (a + d) * (a + b + c + d) - ((a + b) * (a + c) + (c + d) * (b + d)) == 2.0 * (a * d - b * c)
    ensures (a + b + c + d) * (a + b + c + d) - ((a + c) * (a + c) + (b + d) * (b + d)) == 2.0 * ((a + c) * (b + d))
  {
  }

  /** The polynomial identity behind the two-class Gerrity closed form. */
  lemma GerrityPolynomial(a: real, b: real, c: real, d: real)
    ensures a * (b + d) * (b + d) + d * (a + c) * (a + c) - (b + c) * (a + c) * (b + d) == (a * d - b * c) * (a + b + c + d)
  {
  }

  /**
   * (tr/n - rc/n^2) / (1 - cc/n^2): the shape of the Peirce score over a
   * trace, two marginal products and a total; zero where a denominator
   * vanishes.
   */
  function PeirceRatio(tr: real, rc: real, cc: real, n: real): real
  {
    if RatioDefined(cc, n) then (tr / n - rc / (n * n)) / (1.0 - cc / (n * n)) else 0.0
  }

  /** Neither n nor the denominator 1 - cc/n^2 of the Peirce ratio vanishes. */
  predicate RatioDefined(cc: real, n: real)
  {
    n != 0.0 && cc / (n * n) != 1.0
  }

  /** The Peirce ratio equals g once its numerator and denominator, scaled by n^2, are 2h and 2m with g m == h. */
  lemma PeirceRatioValue(tr: real, rc: real, cc: real, n: real, g: real, m: real, h: real)
    requires n > 0.0 && m != 0.0
    requires tr * n - rc == 2.0 * h && n * n - cc == 2.0 * m && g * m == h
    ensures RatioDefined(cc, n)
    ensures PeirceRatio(tr, rc, cc, n) == g
  {
    MulPositive(n, n);
    RatioOfDifferences(tr, rc, cc, n, n * n, g, m, h);
  }

  /** The dot product of (x0, x1) and (y0, y1). */
  function Dot2(x0: real, x1: real, y0: real, y1: real): real
  {
    x0 * y0 + x1 * y1
  }

  /**
   * Two-class Peirce score in closed form: for the table [[a, b], [c, d]] with
   * total n, trace tr, row sums r0, r1, column sums o0, o1 and the marginal
   * products rc = r0 o0 + r1 o1 and cc = o0^2 + o1^2, the Peirce ratio is
   * defined and equals (ad - bc) / (o0 o1).
   */
  lemma PeirceFromMarginals(tr: real, rc: real, cc: real, r0: real, r1: real, o0: real, o1: real,
                            a: real, b: real, c: real, d: real, n: real)
    requires a >= 0.0 && b >= 0.0 && c >= 0.0 && d >= 0.0 && a + c > 0.0 && b + d > 0.0
    requires n == a + b + c + d && tr == a + d
    requires r0 == a + b && r1 == c + d && o0 == a + c && o1 == b + d
    requires rc == Dot2(r0, r1, o0, o1) && cc == Dot2(o0, o1, o0, o1)
    ensures RatioDefined(cc, n)
    ensures PeirceRatio(tr, rc, cc, n) == ClosedForm(a, b, c, d)
  {
    MulPositive(o0, o1);
    PeircePolynomialsAt(tr, rc, cc, r0, r1, o0, o1, a, b, c, d, n);
    ClosedFormScaled(a, b, c, d, o0, o1);
    PeirceRatioValue(tr, rc, cc, n, ClosedForm(a, b, c, d), o0 * o1, a * d - b * c);
  }

  /** PeircePolynomials over the named trace, marginals, marginal products and total. */
  lemma PeircePolynomialsAt(tr: real, rc: real, cc: real, r0: real, r1: real, o0: real, o1: real,
                            a: real, b: real, c: real, d: real, n: real)
    requires n == a + b + c + d && tr == a + d
    requires r0 == a + b && r1 == c + d && o0 == a + c && o1 == b + d
    requires rc == Dot2(r0, r1, o0, o1) && cc == Dot2(o0, o1, o0, o1)
    ensures tr * n - rc == 2.0 * (a * d - b * c)
    ensures n * n - cc == 2.0 * (o0 * o1)
  {
    PeircePolynomials(a, b, c, d);
  }

  /**
   * With nn = n * n, (p/n - q/nn) / (1 - r/nn) == g whenever
   * p*n - q == 2h, nn - r == 2m and g*m == h.
   */
  lemma RatioOfDifferences(p: real, q: real, r: real, n: real, nn: real, g: real, m: real, h: real)
    requires n != 0.0 && nn == n * n && nn != 0.0 && m != 0.0
    requires p * n - q == 2.0 * h && nn - r == 2.0 * m && g * m == h
    ensures r / nn != 1.0
    ensures (p / n - q / nn) / (1.0 - r / nn) == g
  {
    var u, v, w := p / n, q / nn, r / nn;
    DivCancel(p, n);
    DivCancel(q, nn);
    DivCancel(r, nn);
    assert (u - v) * nn == p * n - q by {
      assert u * nn == (u * n) * n;
    }
    assert (1.0 - w) * nn == nn - r;
    assert (g * (1.0 - w)) * nn == g * (nn - r);
    MulCancel(u - v, g * (1.0 - w), nn);
    assert (1.0 - w) * nn == 2.0 * m;
    assert 1.0 - w != 0.0;
    DivByMul(u - v, 1.0 - w, g);
  }

  /**
   * Two-class Gerrity score in closed form: with total n, observed marginals
   * o0, o1 and the single odds ratio x = o1/o0, the weighted table sum is
   * (ad - bc) / (o0 o1).
   */
  lemma BinaryGerrityAlgebra(a: real, b: real, c: real, d: real, n: real, o0: real, o1: real, x: real)
    requires a >= 0.0 && b >= 0.0 && c >= 0.0 && d >= 0.0 && a + c > 0.0 && b + d > 0.0
    requires n == a + b + c + d && o0 == a + c && o1 == b + d && x == o1 / o0
    ensures x != 0.0
    ensures a / n * x + b / n * -1.0 + c / n * -1.0 + d / n * (1.0 / x) == ClosedForm(a, b, c, d)
  {
    OddsInverse(o0, o1, x);
    ClosedFormScaled(a, b, c, d, o0, o1);
    GerrityPolynomialAt(a, b, c, d, n, o0, o1);
    WeightedOdds(a, b, c, d, n, o0, o1, x, 1.0 / x, ClosedForm(a, b, c, d));
  }

  /** The odds ratio x = o1/o0 of two positive marginals and its inverse scale o0 to o1 and back. */
  lemma OddsInverse(o0: real, o1: real, x: real)
    requires o0 > 0.0 && o1 > 0.0 && x == o1 / o0
    ensures o0 * o1 != 0.0 && x != 0.0
    ensures x * o0 == o1 && (1.0 / x) * o1 == o0
  {
    MulPositive(o0, o1);
    DivCancel(o1, o0);
    DivCancel(1.0, x);
    assert (1.0 / x) * o1 == ((1.0 / x) * x) * o0;
  }

  /** The closed form times the product of the observed marginals is ad - bc. */
  lemma ClosedFormScaled(a: real, b: real, c: real, d: real, o0: real, o1: real)
    requires a + c > 0.0 && b + d > 0.0 && o0 == a + c && o1 == b + d
    ensures ClosedForm(a, b, c, d) * (o0 * o1) == a * d - b * c
  {
    MulPositive(a + c, b + d);
    DivCancel(a * d - b * c, (a + c) * (b + d));
  }

  /** GerrityPolynomial over named marginals and total. */
  lemma GerrityPolynomialAt(a: real, b: real, c: real, d: real, n: real, o0: real, o1: real)
    requires n == a + b + c + d && o0 == a + c && o1 == b + d
    ensures a * o1 * o1 + d * o0 * o0 - (b + c) * o0 * o1 == (a * d - b * c) * n
  {
    GerrityPolynomial(a, b, c, d);
  }

  /**
   * (a/n) x - b/n - c/n + (d/n) y == g whenever x*o0 == o1, y*o1 == o0,
   * g*o0*o1 == ad - bc and a*o1^2 + d*o0^2 - (b + c)*o0*o1 == (ad - bc)*n.
   */
  lemma WeightedOdds(a: real, b: real, c: real, d: real, n: real, o0: real, o1: real, x: real, y: real, g: real)
    requires n != 0.0 && o0 * o1 != 0.0
    requires x * o0 == o1 && y * o1 == o0 && g * (o0 * o1) == a * d - b * c
    requires a * o1 * o1 + d * o0 * o0 - (b + c) * o0 * o1 == (a * d - b * c) * n
    ensures a / n * x + b / n * -1.0 + c / n * -1.0 + d / n * y == g
  {
    var lhs := a / n * x + b / n * -1.0 + c / n * -1.0 + d / n * y;
    var inner := a * x - b - c + d * y;
    ScaledSum(a, b, c, d, n, x, y);
    assert lhs * n == inner;
    assert inner * (o0 * o1) == a * o1 * o1 + d * o0 * o0 - (b + c) * o0 * o1 by {
      assert (a * x) * (o0 * o1) == a * (x * o0) * o1;
      assert (d * y) * (o0 * o1) == d * (y * o1) * o0;
    }
    CancelTwo(lhs, g, n, o0 * o1, inner, a * d - b * c);
  }

  /** Multiplying the weighted sum by n clears its denominators. */
  lemma ScaledSum(a: real, b: real, c: real, d: real, n: real, x: real, y: real)
    requires n != 0.0
    ensures (a / n * x + b / n * -1.0 + c / n * -1.0 + d / n * y) * n == a * x - b - c + d * y
  {
    DivCancel(a, n);
    DivCancel(b, n);
    DivCancel(c, n);
    DivCancel(d, n);
    assert (a / n * x) * n == ((a / n) * n) * x;
    assert (d / n * y) * n == ((d / n) * n) * y;
  }

  /** ((1 - o0/n) / (o0/n)) == o1/o0 when n = o0 + o1. */
  lemma OddsRatio(o0: real, o1: real, n: real)
    requires o0 > 0.0 && o1 > 0.0 && n == o0 + o1
    ensures (1.0 - o0 / n) / (o0 / n) == o1 / o0
  {
    var p, q, x := o0 / n, o1 / n, o1 / o0;
    DivCancel(o0, n);
    DivCancel(o1, n);
    DivCancel(o1, o0);
    calc {
      p * n + q * n;
      o0 + o1;
      n;
    }
    OneMinus(p, q, n);
    assert (x * p) * n == x * (p * n);
    MulCancel(x * p, q, n);
    assert p != 0.0;
    DivByMul(1.0 - p, p, x);
  }

  /** The share o0/n of a split n = o0 + o1 into two positive parts is neither 0 nor 1. */
  lemma FractionStrict(o0: real, o1: real, n: real)
    requires o0 > 0.0 && o1 > 0.0 && n == o0 + o1
    ensures o0 / n != 0.0 && o0 / n != 1.0
  {
    var p := o0 / n;
    DivCancel(o0, n);
    assert p * n == o0;
  }
}
