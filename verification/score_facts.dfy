/**
 * Properties of the skill scores: Peirce and Heidke share their numerator, a
 * perfect forecast scores one, the Gerrity weights are symmetric, and with two
 * classes the Gerrity score coincides with the Peirce score.
 */
module ScoreFacts {
  import opened Results
  import opened Sums
  import opened Contingency
  import opened SkillScores
  import opened RealFacts
  import opened BinaryAlgebra

  /**
   * Peirce and Heidke divide the same excess of accuracy over chance by
   * different denominators, so both vanish exactly when the forecast is no
   * better than chance.
   */
  lemma SharedNumerator(t: Table)
    requires PeirceDefined(t) && HeidkeDefined(t)
    ensures ProductIs(Peirce(t), 1.0 - ObservedConcentration(t), Accuracy(t) - ChanceAgreement(t))
    ensures ProductIs(Heidke(t), 1.0 - ChanceAgreement(t), Accuracy(t) - ChanceAgreement(t))
    ensures Peirce(t) == 0.0 <==> Accuracy(t) == ChanceAgreement(t)
    ensures Heidke(t) == 0.0 <==> Accuracy(t) == ChanceAgreement(t)
  {
    QuotientTimesDivisor(Peirce(t), Accuracy(t) - ChanceAgreement(t), 1.0 - ObservedConcentration(t));
    QuotientTimesDivisor(Heidke(t), Accuracy(t) - ChanceAgreement(t), 1.0 - ChanceAgreement(t));
  }

  /** The Heidke score is one exactly when the diagonal holds every sample. */
  lemma HeidkePerfect(t: Table)
    requires HeidkeDefined(t)
    ensures Heidke(t) == 1.0 <==> Trace(t) == Total(t)
  {
    QuotientIsOne(Accuracy(t), Trace(t) as real, Total(t) as real);
    QuotientIsOne(Heidke(t), Accuracy(t) - ChanceAgreement(t), 1.0 - ChanceAgreement(t));
  }

  /** `no.sum() == nf.sum() == n`: the observed classes, like the predicted ones, add up to the grand total. */
  lemma ColumnSumsTotal(t: Table)
    requires IsSquare(t)
    ensures Sum(ColumnSums(t)) == Total(t)
  {
    forall j | 0 <= j < |t|
      ensures ColumnSums(t)[j] == Sum(ColumnNat(t, j))
    {
      assert Column(t, j) == ColumnNat(t, j);
    }
    SumRowsColumnsNat(t, |t|, RowSums(t), ColumnSums(t));
  }

  /** No sample lies off the diagonal. */
  predicate DiagonalOnly(t: Table)
    requires IsSquare(t)
  {
    forall i, j :: 0 <= i < |t| && 0 <= j < |t| && i != j ==> t[i][j] == 0
  }

  /** In a diagonal-only table each class is predicted exactly as often as it is observed. */
  lemma DiagonalMarginals(t: Table)
    requires IsSquare(t) && DiagonalOnly(t)
    ensures RowSums(t) == Diagonal(t)
    ensures ColumnSums(t) == Diagonal(t)
  {
    forall i | 0 <= i < |t|
      ensures RowSums(t)[i] == t[i][i] && ColumnSums(t)[i] == t[i][i]
    {
      SumSingle(t[i], i);
      SumSingle(Column(t, i), i);
    }
  }

  /** A diagonal-only table has Peirce (and, when defined, Heidke) score one. */
  lemma PeircePerfect(t: Table)
    requires PeirceDefined(t) && DiagonalOnly(t)
    ensures Trace(t) == Total(t)
    ensures Peirce(t) == 1.0
    ensures HeidkeDefined(t) && Heidke(t) == 1.0
  {
    DiagonalMarginals(t);
    assert Total(t) == Trace(t);
    DivSelf(Total(t) as real);
    assert ChanceAgreement(t) == ObservedConcentration(t);
    DivSelf(1.0 - ObservedConcentration(t));
    HeidkePerfect(t);
  }

  /** The scoring matrix `s` is symmetric. */
  lemma WeightSymmetric(a: seq<real>)
    requires NonZero(a) && |a| >= 1
    ensures forall i: nat, j: nat :: i <= |a| && j <= |a| ==> Weight(a, i, j) == Weight(a, j, i)
  {
  }

  /** The marginals of a two-class table, written out cell by cell. */
  lemma BinaryMarginals(t: Table)
    requires IsSquare(t) && |t| == 2
    ensures RowSums(t) == [t[0][0] + t[0][1], t[1][0] + t[1][1]]
    ensures ColumnSums(t) == [t[0][0] + t[1][0], t[0][1] + t[1][1]]
    ensures Total(t) == t[0][0] + t[0][1] + t[1][0] + t[1][1]
    ensures Trace(t) == t[0][0] + t[1][1]
  {
    SumPair(t[0]);
    SumPair(t[1]);
    SumPair(Column(t, 0));
    SumPair(Column(t, 1));
    SumPair(RowSums(t));
    SumPair(Diagonal(t));
  }

  /** With both classes observed, the single odds ratio is o1/o0 and the Gerrity score is defined. */
  lemma BinaryOdds(t: Table)
    requires IsSquare(t) && |t| == 2
    requires ColumnSums(t)[0] > 0 && ColumnSums(t)[1] > 0
    ensures GerrityDefined(t)
    ensures Odds(t, 0) == ColumnSums(t)[1] as real / ColumnSums(t)[0] as real
  {
    BinaryMarginals(t);
    var o0, o1 := ColumnSums(t)[0] as real, ColumnSums(t)[1] as real;
    var n := Total(t) as real;
    assert n == o0 + o1;
    var pO := ObservedFrequencies(t);
    assert pO[..1] == [pO[0]];
    SumRealSingle(pO[0]);
    var p := CumulativeFrequency(t, 0);
    assert p == o0 / n;
    FractionStrict(o0, o1, n);
    assert GerrityDefined(t);
    OddsRatio(o0, o1, n);
  }

  /** The two-class scoring matrix: [[a, -1], [-1, 1/a]] for the single odds ratio a. */
  lemma BinaryWeights(a: seq<real>)
    requires NonZero(a) && |a| == 1
    ensures Weight(a, 0, 0) == a[0]
    ensures Weight(a, 0, 1) == -1.0
    ensures Weight(a, 1, 0) == -1.0
    ensures Weight(a, 1, 1) == 1.0 / a[0]
  {
    assert WeightScale(2) == 1.0 by {
      DivSelf(1.0);
    }
  }

  /** The two-class Gerrity score, written out cell by cell. */
  lemma BinaryGerrity(t: Table)
    requires GerrityDefined(t) && |t| == 2
    ensures var n := Total(t) as real;
      Gerrity(t) == t[0][0] as real / n * Odds(t, 0) + t[0][1] as real / n * -1.0
                  + t[1][0] as real / n * -1.0 + t[1][1] as real / n * (1.0 / Odds(t, 0))
  {
    var F, S := RelativeFrequencies(t), ScoringMatrix(OddsVector(t));
    BinaryWeights(OddsVector(t));
    SumRealPair(Times(F[0], S[0]));
    SumRealPair(Times(F[1], S[1]));
    SumRealPair(seq(|F|, i requires 0 <= i < |F| => SumReal(Times(F[i], S[i]))));
  }

  /** Dot product of two-element vectors. */
  lemma DotPair(x: seq<nat>, y: seq<nat>)
    requires |x| == |y| == 2
    ensures Dot(x, y) as real == Dot2(x[0] as real, x[1] as real, y[0] as real, y[1] as real)
  {
    assert Dot(x[1..][1..], y[1..][1..]) == 0;
    CastMul(x[0], y[0]);
    CastMul(x[1], y[1]);
  }

  /** The trace, marginals and marginal products of a two-class table, in its four cells. */
  lemma BinaryPeirceInputs(t: Table)
    requires IsSquare(t) && |t| == 2
    ensures var a, b, c, d := t[0][0] as real, t[0][1] as real, t[1][0] as real, t[1][1] as real;
      var rs, cs := RowSums(t), ColumnSums(t);
      && Total(t) as real == a + b + c + d && Trace(t) as real == a + d
      && rs[0] as real == a + b && rs[1] as real == c + d
      && cs[0] as real == a + c && cs[1] as real == b + d
      && Dot(rs, cs) as real == Dot2(rs[0] as real, rs[1] as real, cs[0] as real, cs[1] as real)
      && Dot(cs, cs) as real == Dot2(cs[0] as real, cs[1] as real, cs[0] as real, cs[1] as real)
  {
    BinaryMarginals(t);
    DotPair(RowSums(t), ColumnSums(t));
    DotPair(ColumnSums(t), ColumnSums(t));
  }

  /** The Peirce ratio of a two-class table, stated over its trace, marginal products and total. */
  lemma BinaryPeirceRatio(t: Table)
    requires IsSquare(t) && |t| == 2
    requires t[0][0] + t[1][0] > 0 && t[0][1] + t[1][1] > 0
    ensures RatioDefined(Dot(ColumnSums(t), ColumnSums(t)) as real, Total(t) as real)
    ensures PeirceRatio(Trace(t) as real, Dot(RowSums(t), ColumnSums(t)) as real, Dot(ColumnSums(t), ColumnSums(t)) as real, Total(t) as real)
         == ClosedForm(t[0][0] as real, t[0][1] as real, t[1][0] as real, t[1][1] as real)
  {
    BinaryPeirceInputs(t);
    var rs, cs := RowSums(t), ColumnSums(t);
    PeirceFromMarginals(Trace(t) as real, Dot(rs, cs) as real, Dot(cs, cs) as real,
      rs[0] as real, rs[1] as real, cs[0] as real, cs[1] as real,
      t[0][0] as real, t[0][1] as real, t[1][0] as real, t[1][1] as real, Total(t) as real);
  }

  /** The two-class Peirce score is defined once both classes are observed, and equals the closed form. */
  lemma BinaryPeirce(t: Table)
    requires IsSquare(t) && |t| == 2
    requires t[0][0] + t[1][0] > 0 && t[0][1] + t[1][1] > 0
    ensures PeirceDefined(t)
    ensures Peirce(t) == ClosedForm(t[0][0] as real, t[0][1] as real, t[1][0] as real, t[1][1] as real)
  {
    assert Total(t) > 0 by {
      BinaryMarginals(t);
    }
    BinaryPeirceRatio(t);
  }

  /**
   * With two classes, both observed, the Gerrity score equals the Peirce score:
   * both are (ad - bc) / ((a + c)(b + d)) for the table [[a, b], [c, d]].
   */
  lemma GerrityBinaryIsPeirce(t: Table)
    requires IsSquare(t) && |t| == 2
    requires ColumnSums(t)[0] > 0 && ColumnSums(t)[1] > 0
    ensures GerrityDefined(t) && PeirceDefined(t)
    ensures Gerrity(t) == Peirce(t)
  {
    BinaryMarginals(t);
    BinaryOdds(t);
    BinaryGerrity(t);
    BinaryPeirce(t);
    BinaryGerrityAlgebra(t[0][0] as real, t[0][1] as real, t[1][0] as real, t[1][1] as real,
      Total(t) as real, ColumnSums(t)[0] as real, ColumnSums(t)[1] as real, Odds(t, 0));
  }

  /**
   * Truths [0, 0, 1, 1] against predictions [0, 1, 1, 1] over classes [0, 1]
   * give the table [[1, 0], [1, 2]], whose Peirce score is one half.
   */
  lemma WorkedExample()
    ensures ContingencyTable(Labels([0, 0, 1, 1]), Labels([0, 1, 1, 1]), Some([0, 1])) == Success([[1, 0], [1, 2]])
    ensures PeirceDefined([[1, 0], [1, 2]])
    ensures PeirceSkillScore(Labels([0, 0, 1, 1]), Labels([0, 1, 1, 1]), Some([0, 1])) == Success(0.5)
  {
    var t: Table := [[1, 0], [1, 2]];
    var ps, ts := [0, 1, 1, 1], [0, 0, 1, 1];
    assert ps[1..] == [1, 1, 1] && ts[1..] == [0, 1, 1];
    assert ps[2..] == [1, 1] && ts[2..] == [1, 1];
    assert ps[3..] == [1] && ts[3..] == [1];
    assert CountPair(ps[3..], ts[3..], 1, 1) == 1;
    assert CountPair(ps[2..], ts[2..], 1, 1) == 2;
    var ct := CountTable(ps, ts, [0, 1]);
    assert ct[0][0] == CountPair(ps, ts, 0, 0) == 1;
    assert ct[0][1] == CountPair(ps, ts, 0, 1) == 0;
    assert ct[1][0] == CountPair(ps, ts, 1, 0) == 1;
    assert ct[1][1] == CountPair(ps, ts, 1, 1) == 2;
    assert ct[0] == t[0] && ct[1] == t[1];
    assert ct == t;
    assert ContingencyTable(Labels(ts), Labels(ps), Some([0, 1])) == Success(ct);
    BinaryPeirce(t);
    assert ClosedForm(1.0, 0.0, 1.0, 2.0) == 0.5;
  }
}
