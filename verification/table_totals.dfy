/**
 * What the contingency table counts: each sample lands in at most one cell, so
 * the grand total is the number of samples whenever every label is a listed
 * class and the class list has no repeats.
 */
module TableTotals {
  import opened Results
  import opened Sums
  import opened Contingency

  /** How many times `x` occurs in `cs`. */
  function Multiplicity(cs: seq<int>, x: int): nat
  {
    if |cs| == 0 then 0 else (if cs[0] == x then 1 else 0) + Multiplicity(cs[1..], x)
  }

  /** The 0/1 sequence marking the positions of `cs` that hold `x`. */
  function Indicator(cs: seq<int>, x: int): (r: seq<nat>)
    ensures |r| == |cs|
  {
    seq(|cs|, i requires 0 <= i < |cs| => if cs[i] == x then 1 else 0)
  }

  /** The cells a sample `(p, t)` contributes to, summed over the table: mult(p) * mult(t). */
  function PairWeight(preds: seq<int>, truths: seq<int>, cs: seq<int>): nat
    requires |preds| == |truths|
  {
    if |preds| == 0 then 0
    else Multiplicity(cs, preds[0]) * Multiplicity(cs, truths[0]) + PairWeight(preds[1..], truths[1..], cs)
  }

  lemma {:induction false} IndicatorSum(cs: seq<int>, x: int)
    ensures Sum(Indicator(cs, x)) == Multiplicity(cs, x)
  {
    if |cs| > 0 {
      assert Indicator(cs, x)[1..] == Indicator(cs[1..], x);
      IndicatorSum(cs[1..], x);
    }
  }

  /** In a list without repeats a value occurs once if listed and never otherwise. */
  lemma {:induction false} DistinctMultiplicity(cs: seq<int>, x: int)
    requires Distinct(cs)
    ensures Multiplicity(cs, x) == if x in cs then 1 else 0
  {
    if |cs| > 0 {
      assert Distinct(cs[1..]);
      assert x in cs <==> x == cs[0] || x in cs[1..];
      if x == cs[0] {
        assert x !in cs[1..];
      }
      DistinctMultiplicity(cs[1..], x);
    }
  }

  /** With a repeat-free class list each sample weighs at most one, and exactly one when both its labels are listed. */
  lemma {:induction false} PairWeightBounds(preds: seq<int>, truths: seq<int>, cs: seq<int>)
    requires |preds| == |truths| && Distinct(cs)
    ensures PairWeight(preds, truths, cs) <= |preds|
    ensures (forall k :: 0 <= k < |preds| ==> preds[k] in cs && truths[k] in cs) ==> PairWeight(preds, truths, cs) == |preds|
  {
    if |preds| > 0 {
      DistinctMultiplicity(cs, preds[0]);
      DistinctMultiplicity(cs, truths[0]);
      PairWeightBounds(preds[1..], truths[1..], cs);
      if forall k :: 0 <= k < |preds| ==> preds[k] in cs && truths[k] in cs {
        assert forall k :: 0 <= k < |preds| - 1 ==> preds[1..][k] == preds[k + 1] && truths[1..][k] == truths[k + 1];
      }
    }
  }

  lemma FirstSampleCell(preds: seq<int>, truths: seq<int>, a: int, b: int)
    requires |preds| == |truths| > 0
    ensures CountPair(preds, truths, a, b)
         == (if preds[0] == a && truths[0] == b then 1 else 0) + CountPair(preds[1..], truths[1..], a, b)
  {
  }

  /** A row named after the first prediction gains one cell per listed copy of the first truth. */
  lemma FirstSampleMatchingRow(preds: seq<int>, truths: seq<int>, cs: seq<int>, i: nat)
    requires |preds| == |truths| > 0 && i < |cs| && cs[i] == preds[0]
    ensures Sum(CountTable(preds, truths, cs)[i])
         == Multiplicity(cs, truths[0]) + Sum(CountTable(preds[1..], truths[1..], cs)[i])
  {
    var row := CountTable(preds, truths, cs)[i];
    var rest := CountTable(preds[1..], truths[1..], cs)[i];
    var ind := Indicator(cs, truths[0]);
    forall j: nat | j < |cs|
      ensures row[j] == ind[j] + rest[j]
    {
      FirstSampleCell(preds, truths, cs[i], cs[j]);
    }
    SumPointwise(ind, rest, row);
    IndicatorSum(cs, truths[0]);
  }

  /** Any other row is unchanged by the first sample. */
  lemma FirstSampleOtherRow(preds: seq<int>, truths: seq<int>, cs: seq<int>, i: nat)
    requires |preds| == |truths| > 0 && i < |cs| && cs[i] != preds[0]
    ensures CountTable(preds, truths, cs)[i] == CountTable(preds[1..], truths[1..], cs)[i]
  {
    var row := CountTable(preds, truths, cs)[i];
    var rest := CountTable(preds[1..], truths[1..], cs)[i];
    forall j: nat | j < |cs|
      ensures row[j] == rest[j]
    {
      FirstSampleCell(preds, truths, cs[i], cs[j]);
    }
  }

  /** The first sample's contribution to a row of the count table. */
  lemma FirstSampleRow(preds: seq<int>, truths: seq<int>, cs: seq<int>, i: nat)
    requires |preds| == |truths| > 0 && i < |cs|
    ensures Sum(CountTable(preds, truths, cs)[i])
         == (if cs[i] == preds[0] then Multiplicity(cs, truths[0]) else 0)
          + Sum(CountTable(preds[1..], truths[1..], cs)[i])
  {
    if cs[i] == preds[0] {
      FirstSampleMatchingRow(preds, truths, cs, i);
    } else {
      FirstSampleOtherRow(preds, truths, cs, i);
    }
  }

  /** The grand total of a count table is the summed weight of its samples. */
  lemma {:induction false} CountTableTotal(preds: seq<int>, truths: seq<int>, cs: seq<int>)
    requires |preds| == |truths|
    ensures Total(CountTable(preds, truths, cs)) == PairWeight(preds, truths, cs)
  {
    var t := CountTable(preds, truths, cs);
    if |preds| == 0 {
      forall i | 0 <= i < |cs|
        ensures RowSums(t)[i] == 0
      {
        SumZero(t[i]);
      }
      SumZero(RowSums(t));
    } else {
      var rest := CountTable(preds[1..], truths[1..], cs);
      var m := Multiplicity(cs, truths[0]);
      var ind := Indicator(cs, preds[0]);
      var firsts: seq<nat> := seq(|cs|, i requires 0 <= i < |cs| => m * ind[i]);
      forall i: nat | i < |cs|
        ensures RowSums(t)[i] == firsts[i] + RowSums(rest)[i]
      {
        FirstSampleRow(preds, truths, cs, i);
        assert firsts[i] == if cs[i] == preds[0] then m else 0;
      }
      SumPointwise(firsts, RowSums(rest), RowSums(t));
      SumScale(Indicator(cs, preds[0]), m, firsts);
      IndicatorSum(cs, preds[0]);
      CountTableTotal(preds[1..], truths[1..], cs);
    }
  }

  /** Each step of the tally adds exactly one sample to exactly one cell. */
  lemma {:induction false} TallyCells(t: Table, preds: seq<nat>, trues: seq<nat>)
    requires IsSquare(t) && |preds| == |trues|
    requires forall k :: 0 <= k < |preds| ==> preds[k] < |t| && trues[k] < |t|
    ensures forall i, j :: 0 <= i < |t| && 0 <= j < |t| ==>
      Tally(t, preds, trues)[i][j] == t[i][j] + CountPair(preds, trues, i, j)
    decreases |preds|
  {
    if |preds| > 0 {
      TallyCells(Bump(t, preds[0], trues[0]), preds[1..], trues[1..]);
    }
  }

  /** The tally's grand total is the starting total plus the number of samples. */
  lemma {:induction false} TallyTotal(t: Table, preds: seq<nat>, trues: seq<nat>)
    requires IsSquare(t) && |preds| == |trues|
    requires forall k :: 0 <= k < |preds| ==> preds[k] < |t| && trues[k] < |t|
    ensures Total(Tally(t, preds, trues)) == Total(t) + |preds|
    decreases |preds|
  {
    if |preds| > 0 {
      var i, j := preds[0], trues[0];
      var b := Bump(t, i, j);
      assert b[i] == t[i][j := t[i][j] + 1];
      SumIncrement(t[i], j);
      assert RowSums(b) == RowSums(t)[i := RowSums(t)[i] + 1];
      SumIncrement(RowSums(t), i);
      TallyTotal(b, preds[1..], trues[1..]);
    }
  }

  lemma ZerosTotal(k: nat)
    ensures Total(Zeros(k)) == 0
  {
    var z := Zeros(k);
    forall i | 0 <= i < k
      ensures RowSums(z)[i] == 0
    {
      SumZero(z[i]);
    }
    SumZero(RowSums(z));
  }

  /**
   * Both sides 2-D: the table is k-by-k for the truths' width k, cell [i][j]
   * counts the samples whose prediction argmax is i and whose truth argmax is
   * j, and the grand total is the number of samples.
   */
  lemma ProbabilisticTable(truths: Forecast, predictions: Forecast, classes: Option<seq<int>>)
    requires Rectangular(truths) && Rectangular(predictions)
    requires truths.Scores? && ContingencyTable(truths, predictions, classes).Success?
    ensures var t := ContingencyTable(truths, predictions, classes).value;
      && |t| == truths.width
      && Total(t) == Length(truths)
      && forall i, j :: 0 <= i < |t| && 0 <= j < |t| ==>
           t[i][j] == CountPair(ArgmaxRows(predictions.rows, truths.width), ArgmaxRows(truths.rows, truths.width), i, j)
  {
    var k := truths.width;
    var trues := ArgmaxRows(truths.rows, k);
    var preds := ArgmaxRows(predictions.rows, k);
    TallyCells(Zeros(k), preds, trues);
    TallyTotal(Zeros(k), preds, trues);
    ZerosTotal(k);
  }

  /** The positions of the samples predicted as `a` and observed as `b`. */
  function MatchingSamples(preds: seq<int>, truths: seq<int>, a: int, b: int): set<nat>
    requires |preds| == |truths|
  {
    set k: nat | k < |preds| && preds[k] == a && truths[k] == b
  }

  /** Counting from the front and counting the last sample separately agree. */
  lemma {:induction false} CountPairLast(preds: seq<int>, truths: seq<int>, a: int, b: int)
    requires |preds| == |truths| > 0
    ensures var n := |preds| - 1;
      CountPair(preds, truths, a, b)
        == CountPair(preds[..n], truths[..n], a, b) + (if preds[n] == a && truths[n] == b then 1 else 0)
  {
    var n := |preds| - 1;
    if n > 0 {
      assert preds[1..][..n - 1] == preds[..n][1..];
      assert truths[1..][..n - 1] == truths[..n][1..];
      CountPairLast(preds[1..], truths[1..], a, b);
    }
  }

  /** `CountPair` is the number of matching sample positions. */
  lemma {:induction false} CountPairCounts(preds: seq<int>, truths: seq<int>, a: int, b: int)
    requires |preds| == |truths|
    ensures CountPair(preds, truths, a, b) == |MatchingSamples(preds, truths, a, b)|
  {
    if |preds| > 0 {
      var n := |preds| - 1;
      CountPairLast(preds, truths, a, b);
      CountPairCounts(preds[..n], truths[..n], a, b);
      var before := MatchingSamples(preds[..n], truths[..n], a, b);
      if preds[n] == a && truths[n] == b {
        assert MatchingSamples(preds, truths, a, b) == before + {n};
      } else {
        assert MatchingSamples(preds, truths, a, b) == before;
      }
    }
  }

  /** Every cell of a label table is the number of its matching samples. */
  lemma CountTableCells(preds: seq<int>, truths: seq<int>, cs: seq<int>)
    requires |preds| == |truths|
    ensures forall i, j :: 0 <= i < |cs| && 0 <= j < |cs| ==>
      CountTable(preds, truths, cs)[i][j] == |MatchingSamples(preds, truths, cs[i], cs[j])|
  {
    forall i, j | 0 <= i < |cs| && 0 <= j < |cs|
      ensures CountTable(preds, truths, cs)[i][j] == |MatchingSamples(preds, truths, cs[i], cs[j])|
    {
      CountPairCounts(preds, truths, cs[i], cs[j]);
    }
  }

  /**
   * Both sides labels: the class list is the given one, or else the sorted
   * labels of the data, and cell [i][j] is the number of samples predicted as
   * class i and observed as class j.
   */
  lemma LabelTable(truths: Forecast, predictions: Forecast, classes: Option<seq<int>>)
    requires truths.Labels? && predictions.Labels? && Length(truths) == Length(predictions)
    ensures ContingencyTable(truths, predictions, classes).Success?
    ensures var t := ContingencyTable(truths, predictions, classes).value;
      var cs := if classes.Some? then classes.value else DerivedClasses(truths.labels, predictions.labels);
      && |t| == |cs|
      && forall i, j :: 0 <= i < |cs| && 0 <= j < |cs| ==>
           t[i][j] == |MatchingSamples(predictions.labels, truths.labels, cs[i], cs[j])|
  {
    var cs := if classes.Some? then classes.value else DerivedClasses(truths.labels, predictions.labels);
    CountTableCells(predictions.labels, truths.labels, cs);
  }

  /**
   * Labels for truths, 2-D predictions and a class list: each prediction is the
   * class at its row's argmax column, and cell [i][j] is the number of samples
   * so predicted as class i and observed as class j.
   */
  lemma MixedTable(truths: Forecast, predictions: Forecast, classes: Option<seq<int>>)
    requires Rectangular(predictions)
    requires truths.Labels? && predictions.Scores? && ContingencyTable(truths, predictions, classes).Success?
    ensures classes.Some? && predictions.width > 0
    ensures TakeClasses(predictions.rows, classes.value).Some?
    ensures var t := ContingencyTable(truths, predictions, classes).value;
      var cs := classes.value;
      var ps := TakeClasses(predictions.rows, cs).value;
      && |t| == |cs|
      && forall i, j :: 0 <= i < |cs| && 0 <= j < |cs| ==>
           t[i][j] == |MatchingSamples(ps, truths.labels, cs[i], cs[j])|
  {
    var ps := TakeClasses(predictions.rows, classes.value).value;
    CountTableCells(ps, truths.labels, classes.value);
  }

  /** Every listed label ends up in the class list derived from the data. */
  lemma DerivedClassesCover(truths: seq<int>, preds: seq<int>)
    ensures Distinct(DerivedClasses(truths, preds))
    ensures forall k :: 0 <= k < |truths| ==> truths[k] in DerivedClasses(truths, preds)
    ensures forall k :: 0 <= k < |preds| ==> preds[k] in DerivedClasses(truths, preds)
  {
    var ut := UniqueSorted(truths);
    var up := UniqueSorted(preds);
    assert forall k :: 0 <= k < |truths| ==> truths[k] in ut + up;
    assert forall k :: 0 <= k < |preds| ==> preds[k] in ut + up;
  }

  /** Without a class list the derived list covers every label, so every sample is counted exactly once. */
  lemma DerivedClassesTotal(truths: Forecast, predictions: Forecast)
    requires Rectangular(truths) && Rectangular(predictions)
    requires ContingencyTable(truths, predictions, None).Success?
    ensures Total(ContingencyTable(truths, predictions, None).value) == Length(truths)
  {
    if truths.Scores? {
      ProbabilisticTable(truths, predictions, None);
    } else {
      var ls := truths.labels;
      var ps := predictions.labels;
      var cs := DerivedClasses(ls, ps);
      DerivedClassesCover(ls, ps);
      CountTableTotal(ps, ls, cs);
      PairWeightBounds(ps, ls, cs);
    }
  }

  /** Every label of a 1-D side is in `cs`; a 2-D side names no labels. */
  predicate Listed(f: Forecast, cs: seq<int>)
  {
    f.Labels? ==> forall k :: 0 <= k < |f.labels| ==> f.labels[k] in cs
  }

  /**
   * With a repeat-free class list no sample is counted twice: the total is at
   * most the number of samples, and exactly that when the list holds every
   * label (2-D predictions always name a listed class).
   */
  lemma GivenClassesTotal(truths: Forecast, predictions: Forecast, classes: seq<int>)
    requires Rectangular(truths) && Rectangular(predictions) && Distinct(classes)
    requires ContingencyTable(truths, predictions, Some(classes)).Success?
    ensures Total(ContingencyTable(truths, predictions, Some(classes)).value) <= Length(truths)
    ensures Listed(truths, classes) && Listed(predictions, classes) ==>
      Total(ContingencyTable(truths, predictions, Some(classes)).value) == Length(truths)
  {
    if truths.Scores? {
      ProbabilisticTable(truths, predictions, Some(classes));
    } else {
      var ls := truths.labels;
      match predictions
      case Scores(w, rows) =>
        var ps := TakeClasses(rows, classes).value;
        CountTableTotal(ps, ls, classes);
        PairWeightBounds(ps, ls, classes);
      case Labels(ps) =>
        CountTableTotal(ps, ls, classes);
        PairWeightBounds(ps, ls, classes);
    }
  }

  /**
   * With labels for truths the total is the weight formula over the class list
   * used: a class listed twice counts its samples twice.
   */
  lemma RepeatedClassCountsTwice()
    ensures Total(ContingencyTable(Labels([0]), Labels([0]), Some([0, 0])).value) == 4
  {
    CountTableTotal([0], [0], [0, 0]);
  }
}
