/** Sums over sequences of counts and of reals, folded from the front. */
module Sums {

  function Sum(s: seq<nat>): nat
  {
    if |s| == 0 then 0 else s[0] + Sum(s[1..])
  }

  function SumReal(s: seq<real>): real
  {
    if |s| == 0 then 0.0 else s[0] + SumReal(s[1..])
  }

  /** Summing two sequences element by element sums their sums. */
  lemma {:induction false} SumPointwise(a: seq<nat>, b: seq<nat>, c: seq<nat>)
    requires |a| == |b| == |c|
    requires forall i :: 0 <= i < |c| ==> c[i] == a[i] + b[i]
    ensures Sum(c) == Sum(a) + Sum(b)
  {
    if |c| > 0 {
      SumPointwise(a[1..], b[1..], c[1..]);
    }
  }

  /** Scaling every element scales the sum. */
  lemma {:induction false} SumScale(a: seq<nat>, m: nat, c: seq<nat>)
    requires |a| == |c|
    requires forall i :: 0 <= i < |c| ==> c[i] == m * a[i]
    ensures Sum(c) == m * Sum(a)
  {
    if |c| > 0 {
      SumScale(a[1..], m, c[1..]);
    }
  }

  /** A sequence that is zero everywhere except at `k` sums to its entry at `k`. */
  lemma {:induction false} SumSingle(s: seq<nat>, k: nat)
    requires k < |s|
    requires forall i :: 0 <= i < |s| && i != k ==> s[i] == 0
    ensures Sum(s) == s[k]
  {
    if k == 0 {
      SumZero(s[1..]);
    } else {
      SumSingle(s[1..], k - 1);
    }
  }

  /** A sequence of zeros sums to zero. */
  lemma {:induction false} SumZero(s: seq<nat>)
    requires forall i :: 0 <= i < |s| ==> s[i] == 0
    ensures Sum(s) == 0
  {
    if |s| > 0 {
      SumZero(s[1..]);
    }
  }

  /** A two-element sequence of reals sums to its two entries. */
  lemma SumRealPair(s: seq<real>)
    requires |s| == 2
    ensures SumReal(s) == s[0] + s[1]
  {
    assert SumReal(s[1..][1..]) == 0.0;
    assert SumReal(s[1..]) == s[1];
  }

  /** Raising one entry by one raises the sum by one. */
  lemma {:induction false} SumIncrement(s: seq<nat>, k: nat)
    requires k < |s|
    ensures Sum(s[k := s[k] + 1]) == Sum(s) + 1
  {
    if k > 0 {
      assert s[k := s[k] + 1][1..] == s[1..][k - 1 := s[1..][k - 1] + 1];
      SumIncrement(s[1..], k - 1);
    }
  }

  /** A two-element sequence of counts sums to its two entries. */
  lemma SumPair(s: seq<nat>)
    requires |s| == 2
    ensures Sum(s) == s[0] + s[1]
  {
    assert Sum(s[1..][1..]) == 0;
    assert Sum(s[1..]) == s[1];
  }

  lemma SumRealSingle(x: real)
    ensures SumReal([x]) == x
  {
    assert [x][1..] == [];
  }

  /** A sequence of real zeros sums to zero. */
  lemma {:induction false} SumRealZero(s: seq<real>)
    requires forall i :: 0 <= i < |s| ==> s[i] == 0.0
    ensures SumReal(s) == 0.0
  {
    if |s| > 0 {
      SumRealZero(s[1..]);
    }
  }

  /** A sequence of reals that is zero everywhere except at `k` sums to its entry at `k`. */
  lemma {:induction false} SumRealOnly(s: seq<real>, k: nat)
    requires k < |s|
    requires forall i :: 0 <= i < |s| && i != k ==> s[i] == 0.0
    ensures SumReal(s) == s[k]
  {
    if k == 0 {
      SumRealZero(s[1..]);
    } else {
      SumRealOnly(s[1..], k - 1);
    }
  }

  /** A constant sequence sums to its length times the constant. */
  lemma {:induction false} SumRealConst(s: seq<real>, x: real)
    requires forall i :: 0 <= i < |s| ==> s[i] == x
    ensures SumReal(s) == |s| as real * x
  {
    if |s| > 0 {
      SumRealConst(s[1..], x);
    }
  }

  /** Summing two sequences of reals element by element sums their sums. */
  lemma {:induction false} SumRealPointwise(a: seq<real>, b: seq<real>, c: seq<real>)
    requires |a| == |b| == |c|
    requires forall i :: 0 <= i < |c| ==> c[i] == a[i] + b[i]
    ensures SumReal(c) == SumReal(a) + SumReal(b)
  {
    if |c| > 0 {
      SumRealPointwise(a[1..], b[1..], c[1..]);
    }
  }

  /** Scaling every element scales the sum. */
  lemma {:induction false} SumRealScale(a: seq<real>, x: real, c: seq<real>)
    requires |a| == |c|
    requires forall i :: 0 <= i < |c| ==> c[i] == x * a[i]
    ensures SumReal(c) == x * SumReal(a)
  {
    if |c| > 0 {
      SumRealScale(a[1..], x, c[1..]);
    }
  }

  /** Cutting a sequence at `c` cuts its sum. */
  lemma {:induction false} SumRealSplit(s: seq<real>, c: nat)
    requires c <= |s|
    ensures SumReal(s) == SumReal(s[..c]) + SumReal(s[c..])
  {
    if c == 0 {
      assert s[..c] == [] && s[c..] == s;
    } else {
      assert s[1..][..c - 1] == s[..c][1..];
      assert s[1..][c - 1..] == s[c..];
      SumRealSplit(s[1..], c - 1);
    }
  }

  /** Weighting the first `c` entries of `p` by `x` and the others by `y`. */
  lemma SumRealTwoWeights(p: seq<real>, s: seq<real>, c: nat, x: real, y: real)
    requires |s| == |p| && c <= |p|
    requires forall j :: 0 <= j < |p| ==> s[j] == p[j] * (if j < c then x else y)
    ensures SumReal(s) == x * SumReal(p[..c]) + y * SumReal(p[c..])
  {
    ScaledPrefix(p, s, c, x, y);
    ScaledSuffix(p, s, c, x, y);
    SumRealSplit(s, c);
  }

  /** The first `c` entries of `SumRealTwoWeights`. */
  lemma ScaledPrefix(p: seq<real>, s: seq<real>, c: nat, x: real, y: real)
    requires |s| == |p| && c <= |p|
    requires forall j :: 0 <= j < |p| ==> s[j] == p[j] * (if j < c then x else y)
    ensures SumReal(s[..c]) == x * SumReal(p[..c])
  {
    assert forall j :: 0 <= j < c ==> s[..c][j] == x * p[..c][j];
    SumRealScale(p[..c], x, s[..c]);
  }

  /** The entries from `c` on of `SumRealTwoWeights`. */
  lemma ScaledSuffix(p: seq<real>, s: seq<real>, c: nat, x: real, y: real)
    requires |s| == |p| && c <= |p|
    requires forall j :: 0 <= j < |p| ==> s[j] == p[j] * (if j < c then x else y)
    ensures SumReal(s[c..]) == y * SumReal(p[c..])
  {
    assert forall j :: 0 <= j < |p| - c ==> s[c..][j] == y * p[c..][j];
    SumRealScale(p[c..], y, s[c..]);
  }

  /** The element-wise product of two equally long sequences. */
  function Times(u: seq<real>, v: seq<real>): (r: seq<real>)
    requires |u| == |v|
    ensures |r| == |u|
  {
    seq(|u|, j requires 0 <= j < |u| => u[j] * v[j])
  }

  /** Every element of `s` multiplied by `x`. */
  function Scale(x: real, s: seq<real>): (r: seq<real>)
    ensures |r| == |s|
  {
    seq(|s|, k requires 0 <= k < |s| => x * s[k])
  }

  lemma SumScaled(x: real, s: seq<real>)
    ensures SumReal(Scale(x, s)) == x * SumReal(s)
  {
    SumRealScale(s, x, Scale(x, s));
  }

  /** The elements of `p` weighted by `x` before position `c` and by `y` from it on. */
  function TwoWeights(p: seq<real>, c: nat, x: real, y: real): (r: seq<real>)
    ensures |r| == |p|
  {
    seq(|p|, j requires 0 <= j < |p| => p[j] * (if j < c then x else y))
  }

  /** The two weights apply to the sum before position `c` and the sum from it on. */
  lemma SumTwoWeights(p: seq<real>, c: nat, x: real, y: real)
    requires c <= |p|
    ensures SumReal(TwoWeights(p, c, x, y)) == x * SumReal(p[..c]) + y * SumReal(p[c..])
  {
    SumRealTwoWeights(p, TwoWeights(p, c, x, y), c, x, y);
  }

  /** Column `m` of a matrix of reals. */
  function ColumnReal(M: seq<seq<real>>, m: nat): (c: seq<real>)
    requires forall j :: 0 <= j < |M| ==> m < |M[j]|
    ensures |c| == |M|
  {
    seq(|M|, j requires 0 <= j < |M| => M[j][m])
  }

  /** A matrix summed row by row and summed column by column gives the same total. */
  lemma {:induction false} SumRowsColumns(M: seq<seq<real>>, w: nat, rows: seq<real>, cols: seq<real>)
    requires forall j :: 0 <= j < |M| ==> |M[j]| == w
    requires |rows| == |M| && forall j :: 0 <= j < |M| ==> rows[j] == SumReal(M[j])
    requires |cols| == w && forall m :: 0 <= m < w ==> cols[m] == SumReal(ColumnReal(M, m))
    ensures SumReal(rows) == SumReal(cols)
  {
    if |M| == 0 {
      SumRealZero(cols);
    } else {
      var rest := seq(w, m requires 0 <= m < w => SumReal(ColumnReal(M[1..], m)));
      forall m | 0 <= m < w
        ensures cols[m] == M[0][m] + rest[m]
      {
        assert ColumnReal(M, m)[1..] == ColumnReal(M[1..], m);
      }
      SumRealPointwise(M[0], rest, cols);
      SumRowsColumns(M[1..], w, rows[1..], rest);
    }
  }

  /** The sums of the rows of a matrix of reals. */
  function RowTotals(M: seq<seq<real>>): (r: seq<real>)
    ensures |r| == |M|
  {
    seq(|M|, i requires 0 <= i < |M| => SumReal(M[i]))
  }

  /** The sums of the first `w` columns of a matrix of reals. */
  function ColumnTotals(M: seq<seq<real>>, w: nat): (c: seq<real>)
    requires forall j :: 0 <= j < |M| ==> w <= |M[j]|
    ensures |c| == w
  {
    seq(w, m requires 0 <= m < w => SumReal(ColumnReal(M, m)))
  }

  /** Summing a matrix by rows or by columns gives the same total. */
  lemma SumTotals(M: seq<seq<real>>, w: nat)
    requires forall j :: 0 <= j < |M| ==> |M[j]| == w
    ensures SumReal(RowTotals(M)) == SumReal(ColumnTotals(M, w))
  {
    SumRowsColumns(M, w, RowTotals(M), ColumnTotals(M, w));
  }

  /** Column `m` of a matrix of counts. */
  function ColumnNat(M: seq<seq<nat>>, m: nat): (c: seq<nat>)
    requires forall j :: 0 <= j < |M| ==> m < |M[j]|
    ensures |c| == |M|
  {
    seq(|M|, j requires 0 <= j < |M| => M[j][m])
  }

  /** A matrix of counts summed row by row and summed column by column gives the same total. */
  lemma {:induction false} SumRowsColumnsNat(M: seq<seq<nat>>, w: nat, rows: seq<nat>, cols: seq<nat>)
    requires forall j :: 0 <= j < |M| ==> |M[j]| == w
    requires |rows| == |M| && forall j :: 0 <= j < |M| ==> rows[j] == Sum(M[j])
    requires |cols| == w && forall m :: 0 <= m < w ==> cols[m] == Sum(ColumnNat(M, m))
    ensures Sum(rows) == Sum(cols)
  {
    if |M| == 0 {
      SumZero(cols);
    } else {
      var rest := seq(w, m requires 0 <= m < w => Sum(ColumnNat(M[1..], m)));
      forall m | 0 <= m < w
        ensures cols[m] == M[0][m] + rest[m]
      {
        assert ColumnNat(M, m)[1..] == ColumnNat(M[1..], m);
      }
      SumPointwise(M[0], rest, cols);
      SumRowsColumnsNat(M[1..], w, rows[1..], rest);
    }
  }

  /** `n` copies of `x`. */
  function Constant(n: nat, x: real): (r: seq<real>)
    ensures |r| == n
  {
    seq(n, _ => x)
  }
}
