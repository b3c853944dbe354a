/**
 * The Gerrity score for any number of classes. Each entry of the scoring
 * matrix splits into shares of the k - 1 boundaries between neighbouring
 * classes. Weighted by the observed frequencies, every boundary contributes
 * exactly one along the diagonal and nothing along a row. So a perfect forecast
 * scores one, and a forecast that always names the same class scores zero.
 */
module GerrityFacts {
  import opened Sums
  import opened Contingency
  import opened SkillScores
  import opened RealFacts
  import opened ScoreFacts

  /**
   * The share of boundary m (between classes m and m + 1) in cell [i][j]:
   * a[m] when both classes lie at or below it, 1/a[m] when both lie above it,
   * and -1 when it separates them.
   */
  function BoundaryWeight(a: seq<real>, m: nat, i: nat, j: nat): real
    requires NonZero(a) && m < |a|
  {
    if i <= m && j <= m then a[m] else if m < i && m < j then Inverses(a)[m] else -1.0
  }

  /** The inverse odds `1.0 / a`. */
  function Inverses(a: seq<real>): (s: seq<real>)
    requires NonZero(a)
    ensures |s| == |a|
  {
    seq(|a|, m requires 0 <= m < |a| => 1.0 / a[m])
  }

  /** The shares of boundaries lo .. hi - 1 in cell [i][j]. */
  function BoundarySum(a: seq<real>, i: nat, j: nat, lo: nat, hi: nat): real
    requires NonZero(a) && lo <= hi <= |a|
    decreases hi - lo
  {
    if lo == hi then 0.0 else BoundaryWeight(a, lo, i, j) + BoundarySum(a, i, j, lo + 1, hi)
  }

  /** The shares of every boundary in cell [i][j], in order. */
  function Boundaries(a: seq<real>, i: nat, j: nat): (s: seq<real>)
    requires NonZero(a)
    ensures |s| == |a|
  {
    seq(|a|, m requires 0 <= m < |a| => BoundaryWeight(a, m, i, j))
  }

  lemma {:induction false} BoundarySplit(a: seq<real>, i: nat, j: nat, lo: nat, mid: nat, hi: nat)
    requires NonZero(a) && lo <= mid <= hi <= |a|
    ensures BoundarySum(a, i, j, lo, hi) == BoundarySum(a, i, j, lo, mid) + BoundarySum(a, i, j, mid, hi)
    decreases mid - lo
  {
    if lo < mid {
      BoundarySplit(a, i, j, lo + 1, mid, hi);
    }
  }

  /** Boundaries below both classes contribute `np.sum(1.0 / a[lo:hi])`. */
  lemma {:induction false} BoundariesBelow(a: seq<real>, i: nat, j: nat, lo: nat, hi: nat)
    requires NonZero(a) && lo <= hi <= |a| && hi <= i && hi <= j
    ensures BoundarySum(a, i, j, lo, hi) == SumInverseOdds(a, lo, hi)
    decreases hi - lo
  {
    if lo < hi {
      BoundariesBelow(a, i, j, lo + 1, hi);
    }
  }

  /** Boundaries above both classes contribute `np.sum(a[lo:hi])`. */
  lemma {:induction false} BoundariesAbove(a: seq<real>, i: nat, j: nat, lo: nat, hi: nat)
    requires NonZero(a) && lo <= hi <= |a| && i <= lo && j <= lo
    ensures BoundarySum(a, i, j, lo, hi) == SumOdds(a, lo, hi)
    decreases hi - lo
  {
    if lo < hi {
      BoundariesAbove(a, i, j, lo + 1, hi);
    }
  }

  /** Boundaries between the two classes contribute -1 each. */
  lemma {:induction false} BoundariesBetween(a: seq<real>, i: nat, j: nat, lo: nat, hi: nat)
    requires NonZero(a) && lo <= hi <= |a|
    requires (i <= lo && hi <= j) || (j <= lo && hi <= i)
    ensures BoundarySum(a, i, j, lo, hi) == -(hi - lo) as real
    decreases hi - lo
  {
    if lo < hi {
      BoundariesBetween(a, i, j, lo + 1, hi);
    }
  }

  /** For i <= j the boundary shares add up to the bracket of `s[i, j]`. */
  lemma BoundariesOrdered(a: seq<real>, i: nat, j: nat)
    requires NonZero(a) && i <= j <= |a|
    ensures BoundarySum(a, i, j, 0, |a|) == SumInverseOdds(a, 0, i) - (j - i) as real + SumOdds(a, j, |a|)
  {
    BoundarySplit(a, i, j, 0, i, |a|);
    BoundarySplit(a, i, j, i, j, |a|);
    BoundariesBelow(a, i, j, 0, i);
    BoundariesBetween(a, i, j, i, j);
    BoundariesAbove(a, i, j, j, |a|);
  }

  lemma {:induction false} BoundariesSymmetric(a: seq<real>, i: nat, j: nat, lo: nat, hi: nat)
    requires NonZero(a) && lo <= hi <= |a|
    ensures BoundarySum(a, i, j, lo, hi) == BoundarySum(a, j, i, lo, hi)
    decreases hi - lo
  {
    if lo < hi {
      BoundariesSymmetric(a, i, j, lo + 1, hi);
    }
  }

  /** The scoring weight `s[i, j]` is the scale 1/(k - 1) times the shares of all boundaries. */
  lemma WeightByBoundaries(a: seq<real>, i: nat, j: nat)
    requires NonZero(a) && |a| >= 1 && i <= |a| && j <= |a|
    ensures Weight(a, i, j) == WeightScale(|a| + 1) * BoundarySum(a, i, j, 0, |a|)
  {
    if i == j {
      WeightOnDiagonal(a, j);
    } else if i < j {
      WeightAboveDiagonal(a, i, j);
    } else {
      WeightAboveDiagonal(a, j, i);
      BoundariesSymmetric(a, i, j, 0, |a|);
    }
  }

  /** `s[j, j]` is its boundary shares scaled by 1/(k - 1). */
  lemma WeightOnDiagonal(a: seq<real>, j: nat)
    requires NonZero(a) && |a| >= 1 && j <= |a|
    ensures Weight(a, j, j) == WeightScale(|a| + 1) * BoundarySum(a, j, j, 0, |a|)
  {
    var x := SumInverseOdds(a, 0, j) + SumOdds(a, j, |a|);
    BoundariesOrdered(a, j, j);
    ScaledEqual(Weight(a, j, j), WeightScale(|a| + 1), x, BoundarySum(a, j, j, 0, |a|), WeightScale(|a| + 1) * BoundarySum(a, j, j, 0, |a|));
  }

  /** `s[i, j]` above the diagonal is its boundary shares scaled by 1/(k - 1). */
  lemma WeightAboveDiagonal(a: seq<real>, i: nat, j: nat)
    requires NonZero(a) && |a| >= 1 && i < j <= |a|
    ensures Weight(a, i, j) == WeightScale(|a| + 1) * BoundarySum(a, i, j, 0, |a|)
  {
    var x := SumInverseOdds(a, 0, i) - (j - i) as real + SumOdds(a, j, |a|);
    BoundariesOrdered(a, i, j);
    ScaledEqual(Weight(a, i, j), WeightScale(|a| + 1), x, BoundarySum(a, i, j, 0, |a|), WeightScale(|a| + 1) * BoundarySum(a, i, j, 0, |a|));
  }

  lemma {:induction false} BoundarySumIsSum(a: seq<real>, i: nat, j: nat, lo: nat)
    requires NonZero(a) && lo <= |a|
    ensures BoundarySum(a, i, j, lo, |a|) == SumReal(Boundaries(a, i, j)[lo..])
    decreases |a| - lo
  {
    if lo < |a| {
      assert Boundaries(a, i, j)[lo..][1..] == Boundaries(a, i, j)[lo + 1..];
      BoundarySumIsSum(a, i, j, lo + 1);
    }
  }

  lemma BoundariesTotal(a: seq<real>, i: nat, j: nat)
    requires NonZero(a)
    ensures BoundarySum(a, i, j, 0, |a|) == SumReal(Boundaries(a, i, j))
  {
    BoundarySumIsSum(a, i, j, 0);
    assert Boundaries(a, i, j)[0..] == Boundaries(a, i, j);
  }

  /** The boundary shares scaled by w sum to w times their sum. */
  lemma ScaledBoundaries(a: seq<real>, i: nat, j: nat, w: real)
    requires NonZero(a)
    ensures SumReal(Scale(w, Boundaries(a, i, j))) == w * BoundarySum(a, i, j, 0, |a|)
  {
    SumScaled(w, Boundaries(a, i, j));
    BoundariesTotal(a, i, j);
  }

  /** g = w * x and x = y make g = w * y, named s; kept apart so no other term joins the products. */
  lemma ScaledEqual(g: real, w: real, x: real, y: real, s: real)
    requires g == w * x && x == y && s == w * y
    ensures g == s
  {
  }

  /** Row i holds the boundary shares of the diagonal cell [i][i], weighted by p[i] and w. */
  function DiagonalShares(p: seq<real>, a: seq<real>, w: real): (M: seq<seq<real>>)
    requires NonZero(a) && |p| == |a| + 1
    ensures |M| == |p| && forall i :: 0 <= i < |M| ==> |M[i]| == |a|
  {
    seq(|p|, i requires 0 <= i < |p| => Scale(p[i], Scale(w, Boundaries(a, i, i))))
  }

  /** Row j holds the boundary shares of cell [r][j], weighted by p[j] and w. */
  function RowShares(p: seq<real>, a: seq<real>, w: real, r: nat): (M: seq<seq<real>>)
    requires NonZero(a) && |p| == |a| + 1
    ensures |M| == |p| && forall j :: 0 <= j < |M| ==> |M[j]| == |a|
  {
    seq(|p|, j requires 0 <= j < |p| => Scale(p[j], Scale(w, Boundaries(a, r, j))))
  }

  /** Row i of the diagonal shares totals its frequency y times g, the scaled shares of cell [i][i]. */
  lemma DiagonalShareRow(p: seq<real>, a: seq<real>, w: real, i: nat, y: real, g: real)
    requires NonZero(a) && |p| == |a| + 1 && i < |p| && y == p[i] && g == SumReal(Scale(w, Boundaries(a, i, i)))
    ensures RowTotals(DiagonalShares(p, a, w))[i] == y * g
  {
    SumScaled(y, Scale(w, Boundaries(a, i, i)));
  }

  /** Row j of row r's shares totals its frequency y times g, the scaled shares of cell [r][j]. */
  lemma RowShareCell(p: seq<real>, a: seq<real>, w: real, r: nat, j: nat, y: real, g: real)
    requires NonZero(a) && |p| == |a| + 1 && j < |p| && y == p[j] && g == SumReal(Scale(w, Boundaries(a, r, j)))
    ensures RowTotals(RowShares(p, a, w, r))[j] == y * g
  {
    SumScaled(y, Scale(w, Boundaries(a, r, j)));
  }

  /** On the diagonal, boundary m weighs w x (x = a[m]) up to class m and w v (v = 1/a[m]) above it. */
  lemma DiagonalColumn(p: seq<real>, a: seq<real>, w: real, m: nat, x: real, v: real)
    requires NonZero(a) && |p| == |a| + 1 && m < |a| && x == a[m] && v == Inverses(a)[m]
    ensures ColumnTotals(DiagonalShares(p, a, w), |a|)[m] == SumReal(TwoWeights(p, m + 1, w * x, w * v))
  {
    var M := DiagonalShares(p, a, w);
    forall j | 0 <= j < |p|
      ensures ColumnReal(M, m)[j] == TwoWeights(p, m + 1, w * x, w * v)[j]
    {
      assert M[j][m] == p[j] * Scale(w, Boundaries(a, j, j))[m];
    }
    assert ColumnReal(M, m) == TwoWeights(p, m + 1, w * x, w * v);
  }

  /** Along row r at or below boundary m, the classes above it weigh -w. */
  lemma RowColumnBelow(p: seq<real>, a: seq<real>, w: real, m: nat, r: nat, x: real)
    requires NonZero(a) && |p| == |a| + 1 && m < |a| && r <= m && x == a[m]
    ensures ColumnTotals(RowShares(p, a, w, r), |a|)[m] == SumReal(TwoWeights(p, m + 1, w * x, -w))
  {
    var M := RowShares(p, a, w, r);
    forall j | 0 <= j < |p|
      ensures ColumnReal(M, m)[j] == TwoWeights(p, m + 1, w * x, -w)[j]
    {
      assert M[j][m] == p[j] * Scale(w, Boundaries(a, r, j))[m];
    }
    assert ColumnReal(M, m) == TwoWeights(p, m + 1, w * x, -w);
  }

  /** Along row r above boundary m, the classes up to it weigh -w. */
  lemma RowColumnAbove(p: seq<real>, a: seq<real>, w: real, m: nat, r: nat, v: real)
    requires NonZero(a) && |p| == |a| + 1 && m < |a| && m < r && v == Inverses(a)[m]
    ensures ColumnTotals(RowShares(p, a, w, r), |a|)[m] == SumReal(TwoWeights(p, m + 1, -w, w * v))
  {
    var M := RowShares(p, a, w, r);
    forall j | 0 <= j < |p|
      ensures ColumnReal(M, m)[j] == TwoWeights(p, m + 1, -w, w * v)[j]
    {
      assert M[j][m] == p[j] * Scale(w, Boundaries(a, r, j))[m];
    }
    assert ColumnReal(M, m) == TwoWeights(p, m + 1, -w, w * v);
  }

  /** Both sides of a boundary weigh w in total when weighted by its odds x and their inverse v. */
  lemma DiagonalAlgebra(w: real, x: real, v: real, P: real, Q: real, s: real)
    requires P + Q == 1.0 && x * P == Q && v * Q == P
    requires s == (w * x) * P + (w * v) * Q
    ensures s == w
  {
    MulAssoc(w, x, P);
    MulAssoc(w, v, Q);
  }

  /** The side of a boundary at or above class r cancels the other side, weighted by -1. */
  lemma BelowAlgebra(w: real, x: real, P: real, Q: real, s: real)
    requires x * P == Q
    requires s == (w * x) * P + (-w) * Q
    ensures s == 0.0
  {
    MulAssoc(w, x, P);
  }

  /** The side of a boundary below class r cancels the other side, weighted by -1. */
  lemma AboveAlgebra(w: real, v: real, P: real, Q: real, s: real)
    requires v * Q == P
    requires s == (-w) * P + (w * v) * Q
    ensures s == 0.0
  {
    MulAssoc(w, v, Q);
  }

  /**
   * a[m] holds the odds against an observation at or below class m, when the
   * frequencies p up to class m sum to neither zero nor one.
   */
  predicate OddsAt(p: seq<real>, a: seq<real>, m: nat)
    requires m < |a| && m < |p|
  {
    var P := SumReal(p[..m + 1]);
    P != 0.0 && P != 1.0 && a[m] == (1.0 - P) / P
  }

  /** `OddsAt` holds at every boundary. */
  predicate OddsEverywhere(p: seq<real>, a: seq<real>)
    requires |p| == |a| + 1
  {
    forall m :: 0 <= m < |a| ==> OddsAt(p, a, m)
  }

  /** The two-weight sum over p, cut after boundary m, named by the masses P and Q on either side. */
  lemma TwoWeightsAt(p: seq<real>, m: nat, X: real, Y: real, P: real, Q: real, s: real)
    requires m + 1 <= |p| && P == SumReal(p[..m + 1]) && Q == SumReal(p[m + 1..])
    requires s == SumReal(TwoWeights(p, m + 1, X, Y))
    ensures s == X * P + Y * Q
  {
    SumTwoWeights(p, m + 1, X, Y);
  }

  /** Weighted by the frequencies p, boundary m weighs w along the diagonal. */
  lemma DiagonalBalance(p: seq<real>, w: real, x: real, v: real, m: nat, P: real, Q: real)
    requires m + 1 <= |p| && SumReal(p) == 1.0 && P == SumReal(p[..m + 1]) && Q == SumReal(p[m + 1..])
    requires x * P == Q && v * Q == P
    ensures SumReal(TwoWeights(p, m + 1, w * x, w * v)) == w
  {
    var s := SumReal(TwoWeights(p, m + 1, w * x, w * v));
    SumRealSplit(p, m + 1);
    TwoWeightsAt(p, m, w * x, w * v, P, Q, s);
    DiagonalAlgebra(w, x, v, P, Q, s);
  }

  /** Weighted by the frequencies p, boundary m weighs nothing along a row at or below it. */
  lemma BelowBalance(p: seq<real>, w: real, x: real, m: nat, P: real, Q: real)
    requires m + 1 <= |p| && P == SumReal(p[..m + 1]) && Q == SumReal(p[m + 1..])
    requires x * P == Q
    ensures SumReal(TwoWeights(p, m + 1, w * x, -w)) == 0.0
  {
    var s := SumReal(TwoWeights(p, m + 1, w * x, -w));
    TwoWeightsAt(p, m, w * x, -w, P, Q, s);
    BelowAlgebra(w, x, P, Q, s);
  }

  /** Weighted by the frequencies p, boundary m weighs nothing along a row above it. */
  lemma AboveBalance(p: seq<real>, w: real, v: real, m: nat, P: real, Q: real)
    requires m + 1 <= |p| && P == SumReal(p[..m + 1]) && Q == SumReal(p[m + 1..])
    requires v * Q == P
    ensures SumReal(TwoWeights(p, m + 1, -w, w * v)) == 0.0
  {
    var s := SumReal(TwoWeights(p, m + 1, -w, w * v));
    TwoWeightsAt(p, m, -w, w * v, P, Q, s);
    AboveAlgebra(w, v, P, Q, s);
  }

  /**
   * With frequencies summing to one, the odds x at boundary m times the mass
   * at or below it is the mass above it, and the inverse odds v turn it back.
   */
  lemma OddsProducts(p: seq<real>, a: seq<real>, m: nat, x: real, v: real, P: real, Q: real)
    requires m < |a| && m + 1 <= |p| && SumReal(p) == 1.0 && OddsAt(p, a, m)
    requires x == a[m] && v == 1.0 / x && P == SumReal(p[..m + 1]) && Q == SumReal(p[m + 1..])
    ensures x * P == Q && v * Q == P
  {
    SumRealSplit(p, m + 1);
    OddsBalance(P, x);
  }

  /** Counts divided by n sum to their total divided by n. */
  lemma {:induction false} SumRealOfCounts(c: seq<nat>, n: real, p: seq<real>)
    requires n != 0.0 && |p| == |c|
    requires forall j :: 0 <= j < |c| ==> p[j] == c[j] as real / n
    ensures SumReal(p) == Sum(c) as real / n
  {
    if |c| > 0 {
      SumRealOfCounts(c[1..], n, p[1..]);
      DivAdd(c[0] as real, Sum(c[1..]) as real, n);
    }
  }

  /** The observed frequencies of a table with at least one sample sum to one. */
  lemma FrequenciesSumToOne(t: Table)
    requires IsSquare(t) && Total(t) > 0
    ensures SumReal(ObservedFrequencies(t)) == 1.0
  {
    ColumnSumsTotal(t);
    SumRealOfCounts(ColumnSums(t), Total(t) as real, ObservedFrequencies(t));
    DivSelf(Total(t) as real);
  }

  /** The odds at boundary m, stated over the observed frequencies. */
  lemma OddsOfFrequencies(t: Table, m: nat)
    requires GerrityDefined(t) && m < |t| - 1
    ensures SumReal(ObservedFrequencies(t)[..m + 1]) != 0.0 && SumReal(ObservedFrequencies(t)[..m + 1]) != 1.0
    ensures OddsVector(t)[m] == (1.0 - SumReal(ObservedFrequencies(t)[..m + 1])) / SumReal(ObservedFrequencies(t)[..m + 1])
  {
    assert CumulativeFrequency(t, m) != 0.0 && CumulativeFrequency(t, m) != 1.0;
    assert OddsVector(t)[m] == Odds(t, m);
  }

  /** n boundaries, each scaled by 1/n, make one. */
  lemma ScaleTimesBoundaries(n: nat, w: real)
    requires n >= 1 && w == WeightScale(n + 1)
    ensures SumReal(Constant(n, w)) == 1.0
  {
    SumRealConst(Constant(n, w), w);
  }

  /** The square matrix holding p on its diagonal and zeros elsewhere. */
  function DiagonalMatrix(p: seq<real>): (D: seq<seq<real>>)
    ensures |D| == |p| && forall i :: 0 <= i < |D| ==> |D[i]| == |p|
  {
    seq(|p|, i requires 0 <= i < |p| => seq(|p|, j requires 0 <= j < |p| => if i == j then p[i] else 0.0))
  }

  /** The square matrix holding p in row r and zeros elsewhere. */
  function SingleRowMatrix(p: seq<real>, r: nat): (D: seq<seq<real>>)
    ensures |D| == |p| && forall i :: 0 <= i < |D| ==> |D[i]| == |p|
  {
    seq(|p|, i requires 0 <= i < |p| => seq(|p|, j requires 0 <= j < |p| => if i == r then p[j] else 0.0))
  }

  /** In a diagonal-only table, `table / n` is the diagonal matrix of the observed frequencies. */
  lemma PerfectFrequencies(t: Table)
    requires IsSquare(t) && Total(t) > 0 && DiagonalOnly(t)
    ensures RelativeFrequencies(t) == DiagonalMatrix(ObservedFrequencies(t))
  {
    var F, D := RelativeFrequencies(t), DiagonalMatrix(ObservedFrequencies(t));
    DiagonalMarginals(t);
    forall i | 0 <= i < |t|
      ensures F[i] == D[i]
    {
      forall j | 0 <= j < |t|
        ensures F[i][j] == D[i][j]
      {
        if i == j {
          assert ColumnSums(t)[i] == t[i][i];
        }
      }
    }
  }

  /** With samples only in row r, `table / n` holds the observed frequencies in row r and zeros elsewhere. */
  lemma ConstantFrequencies(t: Table, r: nat)
    requires IsSquare(t) && Total(t) > 0 && r < |t|
    requires forall i, j :: 0 <= i < |t| && 0 <= j < |t| && i != r ==> t[i][j] == 0
    ensures RelativeFrequencies(t) == SingleRowMatrix(ObservedFrequencies(t), r)
  {
    var F, D := RelativeFrequencies(t), SingleRowMatrix(ObservedFrequencies(t), r);
    SingleRowMarginals(t, r);
    forall i | 0 <= i < |t|
      ensures F[i] == D[i]
    {
      forall j | 0 <= j < |t|
        ensures F[i][j] == D[i][j]
      {
      }
    }
  }

  /** Cell j of the product of two rows, whose entries there are y and g. */
  lemma TimesAt(d: seq<real>, s: seq<real>, j: nat, y: real, g: real)
    requires |d| == |s| && j < |d| && d[j] == y && s[j] == g
    ensures Times(d, s)[j] == y * g
  {
  }

  /** A row that is zero except for y at i, multiplied by a row holding g at i, sums to y * g. */
  lemma TimesOnly(d: seq<real>, s: seq<real>, i: nat, y: real, g: real)
    requires |d| == |s| && i < |d| && d[i] == y && s[i] == g
    requires forall j :: 0 <= j < |d| && j != i ==> d[j] == 0.0
    ensures SumReal(Times(d, s)) == y * g
  {
    var u := Times(d, s);
    forall j | 0 <= j < |u| && j != i
      ensures u[j] == 0.0
    {
      TimesAt(d, s, j, 0.0, s[j]);
    }
    TimesAt(d, s, i, y, g);
    SumRealOnly(u, i);
  }

  /** Weighted by `s`, the diagonal matrix of p scores the row totals of its diagonal boundary shares. */
  lemma PerfectRows(p: seq<real>, a: seq<real>, w: real)
    requires NonZero(a) && |a| >= 1 && |p| == |a| + 1 && w == WeightScale(|a| + 1)
    ensures WeightedSum(DiagonalMatrix(p), ScoringMatrix(a)) == SumReal(RowTotals(DiagonalShares(p, a, w)))
  {
    var D, S, M := DiagonalMatrix(p), ScoringMatrix(a), DiagonalShares(p, a, w);
    forall i | 0 <= i < |p|
      ensures SumReal(Times(D[i], S[i])) == RowTotals(M)[i]
    {
      PerfectRow(p, a, w, i);
    }
    assert seq(|D|, i requires 0 <= i < |D| => SumReal(Times(D[i], S[i]))) == RowTotals(M);
  }

  /** Row i of the diagonal matrix of p, weighted by `s`, is the total of its diagonal boundary shares. */
  lemma PerfectRow(p: seq<real>, a: seq<real>, w: real, i: nat)
    requires NonZero(a) && |a| >= 1 && |p| == |a| + 1 && i < |p| && w == WeightScale(|a| + 1)
    ensures SumReal(Times(DiagonalMatrix(p)[i], ScoringMatrix(a)[i])) == RowTotals(DiagonalShares(p, a, w))[i]
  {
    var y, g := p[i], Weight(a, i, i);
    WeightByBoundaries(a, i, i);
    ScaledBoundaries(a, i, i, w);
    assert DiagonalMatrix(p)[i][i] == y && ScoringMatrix(a)[i][i] == g;
    TimesOnly(DiagonalMatrix(p)[i], ScoringMatrix(a)[i], i, y, g);
    DiagonalShareRow(p, a, w, i, y, g);
  }

  /** Boundary m, with odds x, contributes w along the diagonal. */
  lemma DiagonalBoundary(p: seq<real>, a: seq<real>, w: real, m: nat, x: real)
    requires NonZero(a) && |p| == |a| + 1 && m < |a| && SumReal(p) == 1.0 && OddsAt(p, a, m) && x == a[m]
    ensures ColumnTotals(DiagonalShares(p, a, w), |a|)[m] == w
  {
    var v, P, Q := Inverses(a)[m], SumReal(p[..m + 1]), SumReal(p[m + 1..]);
    DiagonalColumn(p, a, w, m, x, v);
    OddsProducts(p, a, m, x, v, P, Q);
    DiagonalBalance(p, w, x, v, m, P, Q);
  }

  /** Boundary by boundary, the diagonal shares total w for each of the |a| boundaries. */
  lemma DiagonalTotal(p: seq<real>, a: seq<real>, w: real)
    requires NonZero(a) && |p| == |a| + 1 && SumReal(p) == 1.0
    requires OddsEverywhere(p, a)
    ensures SumReal(RowTotals(DiagonalShares(p, a, w))) == SumReal(Constant(|a|, w))
  {
    DiagonalColumns(p, a, w);
    SumTotals(DiagonalShares(p, a, w), |a|);
  }

  /** Every boundary column of the diagonal shares sums to w. */
  lemma DiagonalColumns(p: seq<real>, a: seq<real>, w: real)
    requires NonZero(a) && |p| == |a| + 1 && SumReal(p) == 1.0
    requires OddsEverywhere(p, a)
    ensures ColumnTotals(DiagonalShares(p, a, w), |a|) == Constant(|a|, w)
  {
    forall m | 0 <= m < |a|
      ensures ColumnTotals(DiagonalShares(p, a, w), |a|)[m] == w
    {
      DiagonalBoundary(p, a, w, m, a[m]);
    }
  }

  /** The odds vector is the odds of the cumulative observed frequencies at every boundary. */
  lemma OddsHypotheses(t: Table)
    requires GerrityDefined(t)
    ensures OddsEverywhere(ObservedFrequencies(t), OddsVector(t))
  {
    forall m | 0 <= m < |t| - 1
      ensures OddsAt(ObservedFrequencies(t), OddsVector(t), m)
    {
      OddsOfFrequencies(t, m);
    }
  }

  /** A perfect forecast (every sample on the diagonal) has Gerrity score one, for any number of classes. */
  lemma GerrityPerfect(t: Table)
    requires GerrityDefined(t) && DiagonalOnly(t)
    ensures Gerrity(t) == 1.0
  {
    var p := ObservedFrequencies(t);
    var a := OddsVector(t);
    var w := WeightScale(|a| + 1);
    PerfectFrequencies(t);
    DiagonalMarginals(t);
    FrequenciesSumToOne(t);
    OddsHypotheses(t);
    PerfectRows(p, a, w);
    DiagonalTotal(p, a, w);
    ScaleTimesBoundaries(|a|, w);
  }

  /** In a table with samples only in row r, each column sum is that row's entry. */
  lemma SingleRowMarginals(t: Table, r: nat)
    requires IsSquare(t) && r < |t|
    requires forall i, j :: 0 <= i < |t| && 0 <= j < |t| && i != r ==> t[i][j] == 0
    ensures ColumnSums(t) == t[r]
    ensures Total(t) == Sum(t[r])
  {
    forall j | 0 <= j < |t|
      ensures ColumnSums(t)[j] == t[r][j]
    {
      SumSingle(Column(t, j), r);
    }
    forall i | 0 <= i < |t| && i != r
      ensures RowSums(t)[i] == 0
    {
      SumZero(t[i]);
    }
    SumSingle(RowSums(t), r);
  }

  /** Row r of the single-row matrix of p, weighted by `s`, is the row totals of row r's boundary shares. */
  lemma ConstantRow(p: seq<real>, a: seq<real>, w: real, r: nat)
    requires NonZero(a) && |a| >= 1 && |p| == |a| + 1 && r < |p| && w == WeightScale(|a| + 1)
    ensures Times(SingleRowMatrix(p, r)[r], ScoringMatrix(a)[r]) == RowTotals(RowShares(p, a, w, r))
  {
    forall j | 0 <= j < |p|
      ensures Times(SingleRowMatrix(p, r)[r], ScoringMatrix(a)[r])[j] == RowTotals(RowShares(p, a, w, r))[j]
    {
      ConstantCell(p, a, w, r, j);
    }
  }

  /** Cell j of row r of the single-row matrix of p, weighted by `s`, is the total of its boundary shares. */
  lemma ConstantCell(p: seq<real>, a: seq<real>, w: real, r: nat, j: nat)
    requires NonZero(a) && |a| >= 1 && |p| == |a| + 1 && r < |p| && j < |p| && w == WeightScale(|a| + 1)
    ensures Times(SingleRowMatrix(p, r)[r], ScoringMatrix(a)[r])[j] == RowTotals(RowShares(p, a, w, r))[j]
  {
    var y, g := p[j], Weight(a, r, j);
    WeightByBoundaries(a, r, j);
    ScaledBoundaries(a, r, j, w);
    assert SingleRowMatrix(p, r)[r][j] == y && ScoringMatrix(a)[r][j] == g;
    TimesAt(SingleRowMatrix(p, r)[r], ScoringMatrix(a)[r], j, y, g);
    RowShareCell(p, a, w, r, j, y, g);
  }

  /** Weighted by `s`, the single-row matrix of p scores the row totals of row r's boundary shares. */
  lemma ConstantRows(p: seq<real>, a: seq<real>, w: real, r: nat)
    requires NonZero(a) && |a| >= 1 && |p| == |a| + 1 && r < |p| && w == WeightScale(|a| + 1)
    ensures WeightedSum(SingleRowMatrix(p, r), ScoringMatrix(a)) == SumReal(RowTotals(RowShares(p, a, w, r)))
  {
    var D, S := SingleRowMatrix(p, r), ScoringMatrix(a);
    var d := seq(|D|, i requires 0 <= i < |D| => SumReal(Times(D[i], S[i])));
    forall i | 0 <= i < |D| && i != r
      ensures d[i] == 0.0
    {
      SumRealZero(Times(D[i], S[i]));
    }
    SumRealOnly(d, r);
    ConstantRow(p, a, w, r);
  }

  /** Boundary m at or above class r, with odds x, contributes nothing along row r. */
  lemma RowBoundaryBelow(p: seq<real>, a: seq<real>, w: real, r: nat, m: nat, x: real)
    requires NonZero(a) && |p| == |a| + 1 && r <= m < |a| && SumReal(p) == 1.0 && OddsAt(p, a, m) && x == a[m]
    ensures ColumnTotals(RowShares(p, a, w, r), |a|)[m] == 0.0
  {
    var v, P, Q := Inverses(a)[m], SumReal(p[..m + 1]), SumReal(p[m + 1..]);
    RowColumnBelow(p, a, w, m, r, x);
    OddsProducts(p, a, m, x, v, P, Q);
    BelowBalance(p, w, x, m, P, Q);
  }

  /** Boundary m below class r, with odds x, contributes nothing along row r. */
  lemma RowBoundaryAbove(p: seq<real>, a: seq<real>, w: real, r: nat, m: nat, x: real)
    requires NonZero(a) && |p| == |a| + 1 && m < |a| && m < r && SumReal(p) == 1.0 && OddsAt(p, a, m) && x == a[m]
    ensures ColumnTotals(RowShares(p, a, w, r), |a|)[m] == 0.0
  {
    var v, P, Q := Inverses(a)[m], SumReal(p[..m + 1]), SumReal(p[m + 1..]);
    RowColumnAbove(p, a, w, m, r, v);
    OddsProducts(p, a, m, x, v, P, Q);
    AboveBalance(p, w, v, m, P, Q);
  }

  /** Boundary by boundary, row r's shares total nothing. */
  lemma RowTotal(p: seq<real>, a: seq<real>, w: real, r: nat)
    requires NonZero(a) && |p| == |a| + 1 && SumReal(p) == 1.0
    requires OddsEverywhere(p, a)
    ensures SumReal(RowTotals(RowShares(p, a, w, r))) == 0.0
  {
    RowColumns(p, a, w, r);
    SumTotals(RowShares(p, a, w, r), |a|);
    SumRealZero(Constant(|a|, 0.0));
  }

  /** Every boundary column of row r's shares sums to zero. */
  lemma RowColumns(p: seq<real>, a: seq<real>, w: real, r: nat)
    requires NonZero(a) && |p| == |a| + 1 && SumReal(p) == 1.0
    requires OddsEverywhere(p, a)
    ensures ColumnTotals(RowShares(p, a, w, r), |a|) == Constant(|a|, 0.0)
  {
    forall m | 0 <= m < |a|
      ensures ColumnTotals(RowShares(p, a, w, r), |a|)[m] == 0.0
    {
      if r <= m {
        RowBoundaryBelow(p, a, w, r, m, a[m]);
      } else {
        RowBoundaryAbove(p, a, w, r, m, a[m]);
      }
    }
  }

  /**
   * A forecast that always names class r (every sample in row r) has Gerrity
   * score zero, for any number of classes: the score is equitable.
   */
  lemma GerrityConstantForecast(t: Table, r: nat)
    requires GerrityDefined(t) && r < |t|
    requires forall i, j :: 0 <= i < |t| && 0 <= j < |t| && i != r ==> t[i][j] == 0
    ensures Gerrity(t) == 0.0
  {
    var p := ObservedFrequencies(t);
    var a := OddsVector(t);
    var w := WeightScale(|a| + 1);
    ConstantFrequencies(t, r);
    SingleRowMarginals(t, r);
    FrequenciesSumToOne(t);
    OddsHypotheses(t);
    ConstantRows(p, a, w, r);
    RowTotal(p, a, w, r);
  }
}
