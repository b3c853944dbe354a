/**
 * The multiclass Peirce, Heidke and Gerrity skill scores of a contingency
 * table, over exact rationals. Each is a ratio whose denominator vanishes for
 * degenerate tables; the `...Defined` predicates name exactly the tables on
 * which no division by zero occurs.
 */
module SkillScores {
  import opened Results
  import opened Sums
  import opened Contingency

  /** Sum of the element-wise products of two equally long count vectors. */
  function Dot(a: seq<nat>, b: seq<nat>): nat
    requires |a| == |b|
  {
    if |a| == 0 then 0 else a[0] * b[0] + Dot(a[1..], b[1..])
  }

  /** The diagonal of a square table: the correctly predicted samples per class. */
  function Diagonal(t: Table): (d: seq<nat>)
    requires IsSquare(t)
    ensures |d| == |t|
  {
    seq(|t|, i requires 0 <= i < |t| => t[i][i])
  }

  function Trace(t: Table): nat
    requires IsSquare(t)
  {
    Sum(Diagonal(t))
  }

  /** `correct / n`: the fraction of samples on the diagonal. */
  function Accuracy(t: Table): real
    requires IsSquare(t) && Total(t) > 0
  {
    Trace(t) as real / Total(t) as real
  }

  /** `(nf * no).sum() / n ** 2`: the agreement expected from the marginals alone. */
  function ChanceAgreement(t: Table): real
    requires IsSquare(t) && Total(t) > 0
  {
    var n := Total(t) as real;
    Dot(RowSums(t), ColumnSums(t)) as real / (n * n)
  }

  /** `(no * no).sum() / n ** 2`: how concentrated the observed classes are. */
  function ObservedConcentration(t: Table): real
    requires IsSquare(t) && Total(t) > 0
  {
    var n := Total(t) as real;
    Dot(ColumnSums(t), ColumnSums(t)) as real / (n * n)
  }

  predicate PeirceDefined(t: Table)
  {
    IsSquare(t) && Total(t) > 0 && ObservedConcentration(t) != 1.0
  }

  predicate HeidkeDefined(t: Table)
  {
    IsSquare(t) && Total(t) > 0 && ChanceAgreement(t) != 1.0
  }

  /** `_peirce_skill_score`. */
  function Peirce(t: Table): real
    requires PeirceDefined(t)
  {
    (Accuracy(t) - ChanceAgreement(t)) / (1.0 - ObservedConcentration(t))
  }

  /** `_heidke_skill_score`. */
  function Heidke(t: Table): real
    requires HeidkeDefined(t)
  {
    (Accuracy(t) - ChanceAgreement(t)) / (1.0 - ChanceAgreement(t))
  }

  /** Counts as fractions of the total `n`. */
  function Fractions(c: seq<nat>, n: nat): (r: seq<real>)
    requires n > 0
    ensures |r| == |c|
  {
    seq(|c|, j requires 0 <= j < |c| => c[j] as real / n as real)
  }

  /** `p_o`: the observed relative frequency of each class. */
  function ObservedFrequencies(t: Table): (p: seq<real>)
    requires IsSquare(t) && Total(t) > 0
    ensures |p| == |t|
  {
    Fractions(ColumnSums(t), Total(t))
  }

  /** `p_sum[m] = cumsum(p_o)[m]`. */
  function CumulativeFrequency(t: Table, m: nat): real
    requires IsSquare(t) && Total(t) > 0 && m < |t|
  {
    SumReal(ObservedFrequencies(t)[..m + 1])
  }

  /** At least two classes, and every odds ratio `a[m]` and its inverse is finite. */
  predicate GerrityDefined(t: Table)
  {
    && IsSquare(t) && |t| >= 2 && Total(t) > 0
    && forall m: nat :: m < |t| - 1 ==> CumulativeFrequency(t, m) != 0.0 && CumulativeFrequency(t, m) != 1.0
  }

  /** `a[m] = (1 - p_sum[m]) / p_sum[m]`, the odds against an observation at or below class m. */
  function Odds(t: Table, m: nat): (r: real)
    requires GerrityDefined(t) && m < |t| - 1
    ensures r != 0.0
  {
    var p := CumulativeFrequency(t, m);
    (1.0 - p) / p
  }

  /** The vector `a` of odds ratios, one per class boundary. */
  function OddsVector(t: Table): (a: seq<real>)
    requires GerrityDefined(t)
    ensures |a| == |t| - 1 && NonZero(a)
    ensures forall m :: 0 <= m < |a| ==> a[m] == Odds(t, m)
  {
    seq(|t| - 1, m requires 0 <= m < |t| - 1 => Odds(t, m))
  }

  predicate NonZero(a: seq<real>)
  {
    forall m :: 0 <= m < |a| ==> a[m] != 0.0
  }

  /** `np.sum(a[lo:hi])`. */
  function SumOdds(a: seq<real>, lo: nat, hi: nat): real
    requires lo <= hi <= |a|
    decreases hi - lo
  {
    if lo == hi then 0.0 else a[lo] + SumOdds(a, lo + 1, hi)
  }

  /** `np.sum(1.0 / a[lo:hi])`. */
  function SumInverseOdds(a: seq<real>, lo: nat, hi: nat): real
    requires NonZero(a) && lo <= hi <= |a|
    decreases hi - lo
  {
    if lo == hi then 0.0 else 1.0 / a[lo] + SumInverseOdds(a, lo + 1, hi)
  }

  /** `1.0 / (k - 1.0)`, the normalising factor of the scoring matrix. */
  function WeightScale(k: nat): real
    requires k >= 2
  {
    1.0 / (k as real - 1.0)
  }

  /**
   * `s[i, j]` for k = |a| + 1 classes: the Gerrity scoring weight; below the
   * diagonal it copies the mirrored entry.
   */
  function Weight(a: seq<real>, i: nat, j: nat): real
    requires NonZero(a) && |a| >= 1 && i <= |a| && j <= |a|
    decreases if i > j then 1 else 0
  {
    var k := |a| + 1;
    if i == j then WeightScale(k) * (SumInverseOdds(a, 0, j) + SumOdds(a, j, k - 1))
    else if i < j then WeightScale(k) * (SumInverseOdds(a, 0, i) - (j - i) as real + SumOdds(a, j, k - 1))
    else Weight(a, j, i)
  }

  /** `table / n`: every cell as a fraction of the total. */
  function RelativeFrequencies(t: Table): (F: seq<seq<real>>)
    requires IsSquare(t) && Total(t) > 0
    ensures |F| == |t| && forall i :: 0 <= i < |F| ==> |F[i]| == |t|
  {
    seq(|t|, i requires 0 <= i < |t| => Fractions(t[i], Total(t)))
  }

  /** The scoring matrix `s` of k = |a| + 1 classes. */
  function ScoringMatrix(a: seq<real>): (S: seq<seq<real>>)
    requires NonZero(a) && |a| >= 1
    ensures |S| == |a| + 1 && forall i :: 0 <= i < |S| ==> |S[i]| == |a| + 1
  {
    seq(|a| + 1, i requires 0 <= i < |a| + 1 =>
      seq(|a| + 1, j requires 0 <= j < |a| + 1 => Weight(a, i, j)))
  }

  /** `np.sum(F * S)`: two matrices of one shape multiplied cell by cell, then summed. */
  function WeightedSum(F: seq<seq<real>>, S: seq<seq<real>>): real
    requires |F| == |S| && forall i :: 0 <= i < |F| ==> |F[i]| == |S[i]|
  {
    SumReal(seq(|F|, i requires 0 <= i < |F| => SumReal(Times(F[i], S[i]))))
  }

  /** `_gerrity_score`: the table's relative frequencies weighted by `s` and summed. */
  function Gerrity(t: Table): real
    requires GerrityDefined(t)
  {
    WeightedSum(RelativeFrequencies(t), ScoringMatrix(OddsVector(t)))
  }

  /** Builds the table, then scores it; the table builder's errors pass through unchanged. */
  function GerrityScore(truths: Forecast, predictions: Forecast, classes: Option<seq<int>>): (r: Result<real, TableError>)
    requires Rectangular(truths) && Rectangular(predictions)
    requires ContingencyTable(truths, predictions, classes).Success? ==>
      GerrityDefined(ContingencyTable(truths, predictions, classes).value)
    ensures r.Failure? <==> ContingencyTable(truths, predictions, classes).Failure?
    ensures r.Failure? ==> r.error == ContingencyTable(truths, predictions, classes).error
    ensures r.Success? ==> r.value == Gerrity(ContingencyTable(truths, predictions, classes).value)
  {
    match ContingencyTable(truths, predictions, classes)
    case Failure(e) => Failure(e)
    case Success(t) => Success(Gerrity(t))
  }

  /** Builds the table, then scores it; the table builder's errors pass through unchanged. */
  function PeirceSkillScore(truths: Forecast, predictions: Forecast, classes: Option<seq<int>>): (r: Result<real, TableError>)
    requires Rectangular(truths) && Rectangular(predictions)
    requires ContingencyTable(truths, predictions, classes).Success? ==>
      PeirceDefined(ContingencyTable(truths, predictions, classes).value)
    ensures r.Failure? <==> ContingencyTable(truths, predictions, classes).Failure?
    ensures r.Failure? ==> r.error == ContingencyTable(truths, predictions, classes).error
    ensures r.Success? ==> r.value == Peirce(ContingencyTable(truths, predictions, classes).value)
  {
    match ContingencyTable(truths, predictions, classes)
    case Failure(e) => Failure(e)
    case Success(t) => Success(Peirce(t))
  }

  /** Builds the table, then scores it; the table builder's errors pass through unchanged. */
  function HeidkeSkillScore(truths: Forecast, predictions: Forecast, classes: Option<seq<int>>): (r: Result<real, TableError>)
    requires Rectangular(truths) && Rectangular(predictions)
    requires ContingencyTable(truths, predictions, classes).Success? ==>
      HeidkeDefined(ContingencyTable(truths, predictions, classes).value)
    ensures r.Failure? <==> ContingencyTable(truths, predictions, classes).Failure?
    ensures r.Failure? ==> r.error == ContingencyTable(truths, predictions, classes).error
    ensures r.Success? ==> r.value == Heidke(ContingencyTable(truths, predictions, classes).value)
  {
    match ContingencyTable(truths, predictions, classes)
    case Failure(e) => Failure(e)
    case Success(t) => Success(Heidke(t))
  }
}
