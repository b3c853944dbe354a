/**
 * The contingency table of a set of forecasts: a k-by-k matrix of counts whose
 * row is the predicted class and whose column is the observed class. Truths and
 * predictions each arrive either as a 1-D array of class labels or as a 2-D
 * array of per-class scores (one row per sample); a 2-D side is collapsed to a
 * class by taking the first maximal column of each row.
 */
module Contingency {
  import opened Results
  import opened Sums

  /** Rows of counts; entry [i][j] counts the samples predicted as class i and observed as class j. */
  type Table = seq<seq<nat>>

  predicate IsSquare(t: Table)
  {
    forall i :: 0 <= i < |t| ==> |t[i]| == |t|
  }

  /** Sum of each row: how often each class was predicted. */
  function RowSums(t: Table): (r: seq<nat>)
    ensures |r| == |t|
  {
    seq(|t|, i requires 0 <= i < |t| => Sum(t[i]))
  }

  /** The entries of column `j`, top to bottom. */
  function Column(t: Table, j: nat): (c: seq<nat>)
    requires IsSquare(t) && j < |t|
    ensures |c| == |t|
  {
    seq(|t|, i requires 0 <= i < |t| => t[i][j])
  }

  /** Sum of each column: how often each class was observed. */
  function ColumnSums(t: Table): (r: seq<nat>)
    requires IsSquare(t)
    ensures |r| == |t|
  {
    seq(|t|, j requires 0 <= j < |t| => Sum(Column(t, j)))
  }

  /** Grand total of the table. */
  function Total(t: Table): nat
  {
    Sum(RowSums(t))
  }

  /** One side of the data: a 1-D array of labels, or a 2-D array of `width` scores per sample. */
  datatype Forecast =
    | Labels(labels: seq<int>)
    | Scores(width: nat, rows: seq<seq<real>>)

  /** `len(array)`: the number of samples. */
  function Length(f: Forecast): nat
  {
    match f
    case Labels(labels) => |labels|
    case Scores(_, rows) => |rows|
  }

  /** A 2-D array is rectangular: every row has exactly `width` entries. */
  predicate Rectangular(f: Forecast)
  {
    f.Scores? ==> forall i :: 0 <= i < |f.rows| ==> |f.rows[i]| == f.width
  }

  /** The errors raised while building a table, in the order they are checked. */
  datatype TableError =
    | UnmatchedLengthPredictions        // truths and predictions differ in length
    | UnmatchingProbabilisticForecasts  // 2-D truths with 1-D or differently wide predictions
    | AmbiguousProbabilisticForecasts   // 2-D predictions against labels, with no class list
    | EmptyClassAxis                    // argmax over a class axis of width zero (numpy ValueError)
    | ClassIndexOutOfRange              // a predicted column beyond the class list (numpy IndexError)

  /** The first position holding the largest entry of a non-empty row (numpy argmax). */
  function Argmax(row: seq<real>): (m: nat)
    requires |row| > 0
    ensures m < |row|
    ensures forall i :: 0 <= i < |row| ==> row[i] <= row[m]
    ensures forall i :: 0 <= i < m ==> row[i] < row[m]
  {
    if |row| == 1 then 0
    else
      var m := Argmax(row[..|row| - 1]);
      if row[|row| - 1] > row[m] then |row| - 1 else m
  }

  /** Collapses every row of a 2-D array of width `w` to its argmax column. */
  function ArgmaxRows(rows: seq<seq<real>>, w: nat): (r: seq<nat>)
    requires w > 0 && forall i :: 0 <= i < |rows| ==> |rows[i]| == w
    ensures |r| == |rows|
    ensures forall i :: 0 <= i < |r| ==> r[i] < w && r[i] == Argmax(rows[i])
  {
    seq(|rows|, i requires 0 <= i < |rows| => Argmax(rows[i]))
  }

  /**
   * `np.take(classes, argmax)`: the class named by each row's argmax column, or
   * None when some argmax column lies beyond the class list.
   */
  function TakeClasses(rows: seq<seq<real>>, classes: seq<int>): (r: Option<seq<int>>)
    requires forall i :: 0 <= i < |rows| ==> |rows[i]| > 0
    ensures r.None? <==> exists i :: 0 <= i < |rows| && Argmax(rows[i]) >= |classes|
    ensures r.Some? ==> |r.value| == |rows|
    ensures r.Some? ==> forall i :: 0 <= i < |rows| ==> r.value[i] == classes[Argmax(rows[i])]
  {
    if |rows| == 0 then Some([])
    else
      var m := Argmax(rows[0]);
      if m >= |classes| then None
      else
        match TakeClasses(rows[1..], classes)
        case None =>
          assert forall i :: 0 <= i < |rows| - 1 ==> rows[1..][i] == rows[i + 1];
          None
        case Some(rest) => Some([classes[m]] + rest)
  }

  /** The number of samples `k` with `preds[k] == a` and `truths[k] == b`. */
  function CountPair(preds: seq<int>, truths: seq<int>, a: int, b: int): nat
    requires |preds| == |truths|
  {
    if |preds| == 0 then 0
    else (if preds[0] == a && truths[0] == b then 1 else 0) + CountPair(preds[1..], truths[1..], a, b)
  }

  /** Entry [i][j] counts the samples predicted as `classes[i]` and observed as `classes[j]`. */
  function CountTable(preds: seq<int>, truths: seq<int>, classes: seq<int>): (t: Table)
    requires |preds| == |truths|
    ensures |t| == |classes| && IsSquare(t)
  {
    seq(|classes|, i requires 0 <= i < |classes| =>
      seq(|classes|, j requires 0 <= j < |classes| => CountPair(preds, truths, classes[i], classes[j])))
  }

  /** The k-by-k table of zeros. */
  function Zeros(k: nat): (t: Table)
    ensures |t| == k && IsSquare(t)
    ensures forall i, j :: 0 <= i < k && 0 <= j < k ==> t[i][j] == 0
  {
    seq(k, _ => seq(k, _ => 0))
  }

  /** `table[i, j] += 1`: exactly one cell grows by one, every other cell is kept. */
  function Bump(t: Table, i: nat, j: nat): (r: Table)
    requires IsSquare(t) && i < |t| && j < |t|
    ensures |r| == |t| && IsSquare(r)
    ensures forall a, b :: 0 <= a < |t| && 0 <= b < |t| ==>
      r[a][b] == t[a][b] + (if a == i && b == j then 1 else 0)
  {
    t[i := t[i][j := t[i][j] + 1]]
  }

  /** The loop over `zip(trues, preds)` that adds one at `[pred, true]` for each sample, in order. */
  function Tally(t: Table, preds: seq<nat>, trues: seq<nat>): (r: Table)
    requires IsSquare(t) && |preds| == |trues|
    requires forall k :: 0 <= k < |preds| ==> preds[k] < |t| && trues[k] < |t|
    ensures |r| == |t| && IsSquare(r)
    decreases |preds|
  {
    if |preds| == 0 then t
    else Tally(Bump(t, preds[0], trues[0]), preds[1..], trues[1..])
  }

  /** Strictly increasing, hence free of duplicates. */
  predicate StrictlyIncreasing(s: seq<int>)
  {
    forall i, j :: 0 <= i < j < |s| ==> s[i] < s[j]
  }

  predicate Distinct(s: seq<int>)
  {
    forall i, j :: 0 <= i < j < |s| ==> s[i] != s[j]
  }

  /** Inserts `x` into a strictly increasing sequence, keeping it strictly increasing. */
  function Insert(s: seq<int>, x: int): (r: seq<int>)
    requires StrictlyIncreasing(s)
    ensures StrictlyIncreasing(r)
    ensures forall y :: y in r <==> y in s || y == x
  {
    if |s| == 0 then [x]
    else if x < s[0] then [x] + s
    else if x == s[0] then s
    else
      var rest := Insert(s[1..], x);
      assert forall y :: y in s <==> y == s[0] || y in s[1..];
      assert forall j :: 0 <= j < |rest| ==> s[0] < rest[j] by {
        forall j | 0 <= j < |rest|
          ensures s[0] < rest[j]
        {
          assert rest[j] in rest;
        }
      }
      [s[0]] + rest
  }

  /** `np.unique`: the labels that occur in `xs`, each once, in ascending order. */
  function UniqueSorted(xs: seq<int>): (r: seq<int>)
    ensures StrictlyIncreasing(r)
    ensures forall y :: y in r <==> y in xs
  {
    if |xs| == 0 then []
    else
      var r := Insert(UniqueSorted(xs[..|xs| - 1]), xs[|xs| - 1]);
      assert forall y :: y in xs <==> y in xs[..|xs| - 1] || y == xs[|xs| - 1];
      r
  }

  /** The class list derived when none is given: sorted unique union of truths and predictions. */
  function DerivedClasses(truths: seq<int>, preds: seq<int>): (r: seq<int>)
    ensures StrictlyIncreasing(r)
    ensures forall y :: y in r <==> y in truths || y in preds
  {
    UniqueSorted(UniqueSorted(truths) + UniqueSorted(preds))
  }

  /**
   * `_get_contingency_table`: checks the lengths first, then the shapes, then
   * builds the table along one of three paths (both sides 2-D, predictions only
   * 2-D, both sides labels).
   */
  function ContingencyTable(truths: Forecast, predictions: Forecast, classes: Option<seq<int>>): (r: Result<Table, TableError>)
    requires Rectangular(truths) && Rectangular(predictions)
    ensures r == Failure(UnmatchedLengthPredictions) <==> Length(truths) != Length(predictions)
    ensures r == Failure(UnmatchingProbabilisticForecasts) <==>
      && Length(truths) == Length(predictions)
      && truths.Scores?
      && (predictions.Labels? || predictions.width != truths.width)
    ensures r == Failure(AmbiguousProbabilisticForecasts) <==>
      && Length(truths) == Length(predictions)
      && truths.Labels? && predictions.Scores? && classes.None?
    ensures r == Failure(EmptyClassAxis) <==>
      && Length(truths) == Length(predictions)
      && predictions.Scores? && predictions.width == 0
      && (truths.Scores? ==> truths.width == 0)
      && (truths.Labels? ==> classes.Some?)
    ensures r == Failure(ClassIndexOutOfRange) <==>
      && Length(truths) == Length(predictions)
      && truths.Labels? && predictions.Scores? && classes.Some? && predictions.width > 0
      && exists i :: 0 <= i < |predictions.rows| && Argmax(predictions.rows[i]) >= |classes.value|
    ensures r.Success? ==> IsSquare(r.value)
    ensures r.Success? && truths.Scores? ==> |r.value| == truths.width
    ensures r.Success? && truths.Labels? && classes.Some? ==> |r.value| == |classes.value|
  {
    if Length(truths) != Length(predictions) then Failure(UnmatchedLengthPredictions)
    else if truths.Scores? then
      if predictions.Labels? || predictions.width != truths.width then Failure(UnmatchingProbabilisticForecasts)
      else if truths.width == 0 then Failure(EmptyClassAxis)
      else
        var trues := ArgmaxRows(truths.rows, truths.width);
        var preds := ArgmaxRows(predictions.rows, truths.width);
        Success(Tally(Zeros(truths.width), preds, trues))
    else
      match predictions
      case Scores(w, rows) =>
        if classes.None? then Failure(AmbiguousProbabilisticForecasts)
        else if w == 0 then Failure(EmptyClassAxis)
        else
          (match TakeClasses(rows, classes.value)
           case None => Failure(ClassIndexOutOfRange)
           case Some(preds) => Success(CountTable(preds, truths.labels, classes.value)))
      case Labels(preds) =>
        var cs := if classes.Some? then classes.value else DerivedClasses(truths.labels, preds);
        Success(CountTable(preds, truths.labels, cs))
  }
}
