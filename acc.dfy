/** Accuracy metrics for angular self-motion predictions (acc.py).

    Angles are in degrees over exact reals. A prediction outside [-180, 180]
    is first reflected back into range, the difference to the ground truth is
    then folded once more, and the metrics average the squared or absolute
    difference over the rows of each column.

    Both helpers of acc.py apply the same two masked updates one after the
    other: values above 180 become 360 - x (acc.py:18 writes it as
    180 + (180 - x)), and then values below -180 become -360 - x. The second
    update sees the result of the first. This is a reflection, not the modular
    wrap ((x + 180) mod 360) - 180: the magnitude agrees on [-360, 360] but the
    sign may differ.
 */
module Acc {

  // ---------------------------------------------------------------------------
  // Element maps
  // ---------------------------------------------------------------------------

  function Abs(x: real): (r: real) { if x < 0.0 then -x else x }

  function Min(a: real, b: real): (r: real) { if a <= b then a else b }

  /** The masked update for values above 180 (acc.py:18 and acc.py:25). */
  function FoldAbove(x: real): (r: real)
    ensures r <= 180.0
    ensures r == x <==> x <= 180.0
  {
    if x > 180.0 then 360.0 - x else x
  }

  /** The masked update for values below -180 (acc.py:20 and acc.py:26). */
  function FoldBelow(x: real): (r: real)
    ensures r >= -180.0
    ensures r == x <==> x >= -180.0
  {
    if x < -180.0 then -360.0 - x else x
  }

  /** What either helper does to one element: the update for values above 180,
      then the update for values below -180 applied to its result. */
  function Fold(x: real): (r: real)
    // fixed points are exactly the values already in range
    ensures r == x <==> -180.0 <= x <= 180.0
    // predictions within one reflection of the range land in range
    ensures -540.0 <= x <= 540.0 ==> -180.0 <= r <= 180.0
    // a difference of two in-range angles becomes the shorter way round
    ensures -360.0 <= x <= 360.0 ==> Abs(r) == Min(Abs(x), 360.0 - Abs(x))
  {
    FoldBelow(FoldAbove(x))
  }

  /** A prediction in (180, 540] is reflected once, to 360 - p, in [-180, 180);
      one in [-540, -180) is reflected once, to -360 - p, in (-180, 180]. */
  lemma FoldOneReflection(p: real)
    ensures 180.0 < p <= 540.0 ==> Fold(p) == 360.0 - p && -180.0 <= Fold(p) < 180.0
    ensures -540.0 <= p < -180.0 ==> Fold(p) == -360.0 - p && -180.0 < Fold(p) <= 180.0
  {
  }

  /** The two updates run in sequence: a value above 540 is pushed below -180
      by the first and reflected again by the second, e.g. 600 -> -240 -> -120.
      Nothing reflects a second time on the negative side, so the map is not
      symmetric: -600 -> 240. */
  lemma FoldSequenced(p: real)
    ensures p > 540.0 ==> FoldAbove(p) < -180.0 && Fold(p) == p - 720.0
    ensures p < -180.0 ==> Fold(p) == -360.0 - p
    ensures FoldAbove(600.0) == -240.0 && Fold(600.0) == -120.0
    ensures Fold(-600.0) == 240.0
  {
  }

  /** Predictions land in [-180, 180] exactly when they lie in [-540, 900]:
      above 540 the second update reflects once more, below -540 nothing does. */
  lemma FoldInRangeExactly(p: real)
    ensures -180.0 <= Fold(p) <= 180.0 <==> -540.0 <= p <= 900.0
  {
    FoldSequenced(p);
  }

  /** The modular wrap ((d + 180) mod 360) - 180, which the code does not compute. */
  function Wrap(d: real): (r: real)
    ensures -180.0 <= r < 180.0
  {
    d - 360.0 * (((d + 180.0) / 360.0).Floor as real)
  }

  /** On [-360, 360] the fold and the modular wrap agree in magnitude, and
      differ at most in sign. */
  lemma FoldMagnitudeIsWrapMagnitude(d: real)
    requires -360.0 <= d <= 360.0
    ensures Abs(Fold(d)) == Abs(Wrap(d))
    ensures Fold(d) == Wrap(d) || Fold(d) == -Wrap(d)
  {
    var n := ((d + 180.0) / 360.0).Floor;
    if d < -180.0 {
      assert n == -1;
    } else if d < 180.0 {
      assert n == 0;
    } else {
      assert n == 1;
    }
  }

  /** The result is always an equivalent angle up to sign, but the sign does
      not follow a modular wrap: 359 folds to 1 where the modular wrap gives
      -1, while -1 is left as -1. A prediction of 10 against a truth of 350
      differs by -20, the short way round. */
  lemma FoldIsReflectionNotWrap(d: real)
    requires -360.0 <= d <= 360.0
    ensures Fold(d) == d || Fold(d) == 360.0 - d || Fold(d) == -360.0 - d
    ensures Fold(359.0) == 1.0 && Wrap(359.0) == -1.0
    ensures Fold(-1.0) == -1.0 && Wrap(-1.0) == -1.0
    ensures Fold(10.0 - 350.0) == -20.0
  {
  }

  // ---------------------------------------------------------------------------
  // In-place masked updates on a 2-D array
  // ---------------------------------------------------------------------------

  /** `a[a > 180] = 360 - a[a > 180]`. */
  method MaskAbove(a: array2<real>)
    modifies a
    ensures forall i, j :: 0 <= i < a.Length0 && 0 <= j < a.Length1 ==> a[i, j] == FoldAbove(old(a[i, j]))
  {
    var i := 0;
    while i < a.Length0
      invariant 0 <= i <= a.Length0
      invariant forall r, c :: 0 <= r < i && 0 <= c < a.Length1 ==> a[r, c] == FoldAbove(old(a[r, c]))
      invariant forall r, c :: i <= r < a.Length0 && 0 <= c < a.Length1 ==> a[r, c] == old(a[r, c])
    {
      var j := 0;
      while j < a.Length1
        invariant 0 <= j <= a.Length1
        invariant forall r, c :: 0 <= r < i && 0 <= c < a.Length1 ==> a[r, c] == FoldAbove(old(a[r, c]))
        invariant forall c :: 0 <= c < j ==> a[i, c] == FoldAbove(old(a[i, c]))
        invariant forall c :: j <= c < a.Length1 ==> a[i, c] == old(a[i, c])
        invariant forall r, c :: i < r < a.Length0 && 0 <= c < a.Length1 ==> a[r, c] == old(a[r, c])
      {
        if a[i, j] > 180.0 {
          a[i, j] := 360.0 - a[i, j];
        }
        j := j + 1;
      }
      i := i + 1;
    }
  }

  /** `a[a < -180] = -360 - a[a < -180]`. */
  method MaskBelow(a: array2<real>)
    modifies a
    ensures forall i, j :: 0 <= i < a.Length0 && 0 <= j < a.Length1 ==> a[i, j] == FoldBelow(old(a[i, j]))
  {
    var i := 0;
    while i < a.Length0
      invariant 0 <= i <= a.Length0
      invariant forall r, c :: 0 <= r < i && 0 <= c < a.Length1 ==> a[r, c] == FoldBelow(old(a[r, c]))
      invariant forall r, c :: i <= r < a.Length0 && 0 <= c < a.Length1 ==> a[r, c] == old(a[r, c])
    {
      var j := 0;
      while j < a.Length1
        invariant 0 <= j <= a.Length1
        invariant forall r, c :: 0 <= r < i && 0 <= c < a.Length1 ==> a[r, c] == FoldBelow(old(a[r, c]))
        invariant forall c :: 0 <= c < j ==> a[i, c] == FoldBelow(old(a[i, c]))
        invariant forall c :: j <= c < a.Length1 ==> a[i, c] == old(a[i, c])
        invariant forall r, c :: i < r < a.Length0 && 0 <= c < a.Length1 ==> a[r, c] == old(a[r, c])
      {
        if a[i, j] < -180.0 {
          a[i, j] := -360.0 - a[i, j];
        }
        j := j + 1;
      }
      i := i + 1;
    }
  }

  /** The rows of a 2-D array, as the pure model sees them. */
  function Rows(a: array2<real>): (m: Matrix)
    reads a
    ensures |m| == a.Length0 && Rect(m) && (|m| > 0 ==> Cols(m) == a.Length1)
    ensures forall i, j :: 0 <= i < a.Length0 && 0 <= j < a.Length1 ==> m[i][j] == a[i, j]
  {
    seq(a.Length0, i requires 0 <= i < a.Length0 reads a =>
      seq(a.Length1, j requires 0 <= j < a.Length1 reads a => a[i, j]))
  }

  /** `_bring_preds_within_range`: works on a fresh copy of the predictions,
      applies the update for values above 180 and then, on the updated copy,
      the update for values below -180. The caller's array is untouched. */
  method BringPredsWithinRange(preds: array2<real>) returns (reflect: array2<real>)
    ensures fresh(reflect) && unchanged(preds)
    ensures reflect.Length0 == preds.Length0 && reflect.Length1 == preds.Length1
    ensures forall i, j :: 0 <= i < preds.Length0 && 0 <= j < preds.Length1 ==> reflect[i, j] == Fold(preds[i, j])
    ensures Rows(reflect) == FoldAll(Rows(preds))
  {
    reflect := new real[preds.Length0, preds.Length1]((i, j) reads preds
      requires 0 <= i < preds.Length0 && 0 <= j < preds.Length1 => preds[i, j]);
    MaskAbove(reflect);
    MaskBelow(reflect);
    RowsOfFolded(preds, reflect);
  }

  /** `_circ_error_diff`: the same two updates, in place on `diff`, which it
      also returns. */
  method CircErrorDiff(diff: array2<real>) returns (r: array2<real>)
    modifies diff
    ensures r == diff
    ensures forall i, j :: 0 <= i < diff.Length0 && 0 <= j < diff.Length1 ==> diff[i, j] == Fold(old(diff[i, j]))
    ensures Rows(diff) == FoldAll(old(Rows(diff)))
  {
    ghost var before := Rows(diff);
    MaskAbove(diff);
    MaskBelow(diff);
    RowsOfFoldedMatrix(before, diff);
    r := diff;
  }

  /** Entrywise `Fold` of an array, seen through `Rows`. */
  lemma RowsOfFolded(src: array2<real>, dst: array2<real>)
    requires dst.Length0 == src.Length0 && dst.Length1 == src.Length1
    requires forall i, j :: 0 <= i < src.Length0 && 0 <= j < src.Length1 ==> dst[i, j] == Fold(src[i, j])
    ensures Rows(dst) == FoldAll(Rows(src))
  {
    RowsOfFoldedMatrix(Rows(src), dst);
  }

  lemma RowsOfFoldedMatrix(src: Matrix, dst: array2<real>)
    requires |src| == dst.Length0 && forall i :: 0 <= i < |src| ==> |src[i]| == dst.Length1
    requires forall i, j :: 0 <= i < dst.Length0 && 0 <= j < dst.Length1 ==> dst[i, j] == Fold(src[i][j])
    ensures Rows(dst) == FoldAll(src)
  {
    var m, f := Rows(dst), FoldAll(src);
    assert |m| == |f|;
    forall i | 0 <= i < |m|
      ensures m[i] == f[i]
    {
      assert |m[i]| == |f[i]|;
    }
  }

  // ---------------------------------------------------------------------------
  // Pure model of the arrays: a sequence of rows
  // ---------------------------------------------------------------------------

  type Matrix = seq<seq<real>>

  /** Number of columns, read from the first row. */
  function Cols(m: Matrix): (n: nat) { if |m| == 0 then 0 else |m[0]| }

  /** Every row has the same length, as in a 2-D array. */
  predicate Rect(m: Matrix) { forall i :: 0 <= i < |m| ==> |m[i]| == Cols(m) }

  predicate SameShape(a: Matrix, b: Matrix)
  {
    |a| == |b| && forall i :: 0 <= i < |a| ==> |a[i]| == |b[i]|
  }

  /** Elementwise application of `f`. */
  function MapEntries(m: Matrix, f: real -> real): (r: Matrix)
    ensures SameShape(r, m)
    ensures forall i, k :: 0 <= i < |m| && 0 <= k < |m[i]| ==> r[i][k] == f(m[i][k])
  {
    seq(|m|, i requires 0 <= i < |m| => seq(|m[i]|, k requires 0 <= k < |m[i]| => f(m[i][k])))
  }

  /** What either helper does to a whole array. */
  function FoldAll(m: Matrix): (r: Matrix)
    ensures SameShape(r, m)
    ensures forall i, k :: 0 <= i < |m| && 0 <= k < |m[i]| ==> r[i][k] == Fold(m[i][k])
  {
    MapEntries(m, Fold)
  }

  /** `y_pred - y_true` for arrays of equal shape. */
  function Subtract(a: Matrix, b: Matrix): (r: Matrix)
    requires SameShape(a, b)
    ensures SameShape(r, a)
    ensures forall i, k :: 0 <= i < |a| && 0 <= k < |a[i]| ==> r[i][k] == a[i][k] - b[i][k]
  {
    seq(|a|, i requires 0 <= i < |a| => seq(|a[i]|, k requires 0 <= k < |a[i]| => a[i][k] - b[i][k]))
  }

  /** `circ_error`: reflect the predictions into range, subtract the truth,
      and fold the difference. Entry (i, k) depends only on entry (i, k) of
      each input. */
  function CircError(pred: Matrix, truth: Matrix): (r: Matrix)
    requires SameShape(pred, truth)
    ensures SameShape(r, pred)
    ensures forall i, k :: 0 <= i < |pred| && 0 <= k < |pred[i]| ==>
      r[i][k] == Fold(Fold(pred[i][k]) - truth[i][k])
  {
    FoldAll(Subtract(FoldAll(pred), truth))
  }

  /** The difference both metrics start from: plain subtraction, or
      `circ_error` when circular correction is on. */
  function Difference(pred: Matrix, truth: Matrix, circCorrection: bool): (r: Matrix)
    requires SameShape(pred, truth)
    ensures SameShape(r, pred)
    ensures !circCorrection ==> forall i, k :: 0 <= i < |pred| && 0 <= k < |pred[i]| ==>
      r[i][k] == pred[i][k] - truth[i][k]
  {
    if circCorrection then CircError(pred, truth) else Subtract(pred, truth)
  }

  // ---------------------------------------------------------------------------
  // Means over rows
  // ---------------------------------------------------------------------------

  function Sum(s: seq<real>): (r: real)
  {
    if |s| == 0 then 0.0 else s[0] + Sum(s[1..])
  }

  function Column(m: Matrix, k: nat): (col: seq<real>)
    requires Rect(m) && k < Cols(m)
    ensures |col| == |m| && forall i :: 0 <= i < |m| ==> col[i] == m[i][k]
  {
    seq(|m|, i requires 0 <= i < |m| => m[i][k])
  }

  /** `np.mean(m, axis=0)`: one value per column, the mean over the rows. */
  function MeanAxis0(m: Matrix): (r: seq<real>)
    requires |m| > 0 && Rect(m)
    ensures |r| == Cols(m)
    ensures forall k :: 0 <= k < |r| ==> r[k] * (|m| as real) == Sum(Column(m, k))
  {
    seq(Cols(m), k requires 0 <= k < Cols(m) => Sum(Column(m, k)) / (|m| as real))
  }

  lemma {:induction false} SumNonNegative(s: seq<real>)
    requires forall i :: 0 <= i < |s| ==> s[i] >= 0.0
    ensures Sum(s) >= 0.0
  {
    if |s| > 0 {
      SumNonNegative(s[1..]);
    }
  }

  lemma {:induction false} SumAtMost(s: seq<real>, bound: real)
    requires forall i :: 0 <= i < |s| ==> s[i] <= bound
    ensures Sum(s) <= (|s| as real) * bound
  {
    if |s| > 0 {
      SumAtMost(s[1..], bound);
    }
  }

  lemma {:induction false} SumOfZeros(s: seq<real>)
    requires forall i :: 0 <= i < |s| ==> s[i] == 0.0
    ensures Sum(s) == 0.0
  {
    if |s| > 0 {
      SumOfZeros(s[1..]);
    }
  }

  /** Column means of non-negative entries are non-negative. */
  lemma MeanNonNegative(m: Matrix)
    requires |m| > 0 && Rect(m)
    requires forall i, k :: 0 <= i < |m| && 0 <= k < |m[i]| ==> m[i][k] >= 0.0
    ensures forall k :: 0 <= k < Cols(m) ==> MeanAxis0(m)[k] >= 0.0
  {
    forall k | 0 <= k < Cols(m)
      ensures MeanAxis0(m)[k] >= 0.0
    {
      SumNonNegative(Column(m, k));
    }
  }

  lemma ScaledBound(v: real, n: real, bound: real)
    requires n > 0.0 && v * n <= n * bound
    ensures v <= bound
  {
  }

  /** Column means of entries bounded by `bound` are bounded by `bound`. */
  lemma MeanAtMost(m: Matrix, bound: real)
    requires |m| > 0 && Rect(m)
    requires forall i, k :: 0 <= i < |m| && 0 <= k < |m[i]| ==> m[i][k] <= bound
    ensures forall k :: 0 <= k < Cols(m) ==> MeanAxis0(m)[k] <= bound
  {
    var n := |m| as real;
    forall k | 0 <= k < Cols(m)
      ensures MeanAxis0(m)[k] <= bound
    {
      SumAtMost(Column(m, k), bound);
      var col := Column(m, k);
      assert (|col| as real) * bound == n * bound;
      assert MeanAxis0(m)[k] * n == Sum(col) <= n * bound;
      ScaledBound(MeanAxis0(m)[k], n, bound);
    }
  }

  /** Column means of an all-zero array are zero. */
  lemma MeanOfZeros(m: Matrix)
    requires |m| > 0 && Rect(m)
    requires forall i, k :: 0 <= i < |m| && 0 <= k < |m[i]| ==> m[i][k] == 0.0
    ensures forall k :: 0 <= k < Cols(m) ==> MeanAxis0(m)[k] == 0.0
  {
    forall k | 0 <= k < Cols(m)
      ensures MeanAxis0(m)[k] == 0.0
    {
      SumOfZeros(Column(m, k));
    }
  }

  // ---------------------------------------------------------------------------
  // Metrics
  // ---------------------------------------------------------------------------

  function Square(x: real): (r: real)
    ensures r >= 0.0
  {
    x * x
  }

  /** Well-formed metric inputs: two arrays of one shape with at least one row. */
  predicate MetricInputs(pred: Matrix, truth: Matrix)
  {
    |pred| > 0 && Rect(pred) && SameShape(pred, truth)
  }

  /** `mse`: per-column mean of the squared difference; never negative. */
  function Mse(pred: Matrix, truth: Matrix, circCorrection: bool): (r: seq<real>)
    requires MetricInputs(pred, truth)
    ensures |r| == Cols(pred)
    ensures forall k :: 0 <= k < |r| ==> r[k] >= 0.0
  {
    var sq := MapEntries(Difference(pred, truth, circCorrection), Square);
    MeanNonNegative(sq);
    MeanAxis0(sq)
  }

  /** `mae`: per-column mean of the absolute difference; never negative. */
  function Mae(pred: Matrix, truth: Matrix, circCorrection: bool): (r: seq<real>)
    requires MetricInputs(pred, truth)
    ensures |r| == Cols(pred)
    ensures forall k :: 0 <= k < |r| ==> r[k] >= 0.0
  {
    var ab := MapEntries(Difference(pred, truth, circCorrection), Abs);
    MeanNonNegative(ab);
    MeanAxis0(ab)
  }

  /** Truth in [-180, 180] and predictions in [-540, 540]: every entry of
      `circ_error` lies in [-180, 180]. */
  lemma CircErrorBounded(pred: Matrix, truth: Matrix)
    requires SameShape(pred, truth)
    requires forall i, k :: 0 <= i < |pred| && 0 <= k < |pred[i]| ==> -540.0 <= pred[i][k] <= 540.0
    requires forall i, k :: 0 <= i < |truth| && 0 <= k < |truth[i]| ==> -180.0 <= truth[i][k] <= 180.0
    ensures forall i, k :: 0 <= i < |pred| && 0 <= k < |pred[i]| ==> Abs(CircError(pred, truth)[i][k]) <= 180.0
    ensures forall i, k :: 0 <= i < |pred| && 0 <= k < |pred[i]| ==>
      var d := Fold(pred[i][k]) - truth[i][k];
      Abs(CircError(pred, truth)[i][k]) == Min(Abs(d), 360.0 - Abs(d))
  {
  }

  lemma SquareAtMost(x: real)
    requires Abs(x) <= 180.0
    ensures Square(x) <= 32400.0
  {
    if x >= 0.0 {
      assert x * x <= 180.0 * x;
    } else {
      assert x * x <= -180.0 * x;
    }
  }

  /** Under the same input ranges, each column of `mae` with circular
      correction is at most 180 and each column of `mse` at most 180 squared. */
  lemma CircMetricsBounded(pred: Matrix, truth: Matrix)
    requires MetricInputs(pred, truth)
    requires forall i, k :: 0 <= i < |pred| && 0 <= k < |pred[i]| ==> -540.0 <= pred[i][k] <= 540.0
    requires forall i, k :: 0 <= i < |truth| && 0 <= k < |truth[i]| ==> -180.0 <= truth[i][k] <= 180.0
    ensures forall k :: 0 <= k < Cols(pred) ==> Mae(pred, truth, true)[k] <= 180.0
    ensures forall k :: 0 <= k < Cols(pred) ==> Mse(pred, truth, true)[k] <= 32400.0
  {
    var d := Difference(pred, truth, true);
    CircErrorBounded(pred, truth);
    var ab := MapEntries(d, Abs);
    MeanAtMost(ab, 180.0);
    var sq := MapEntries(d, Square);
    forall i, k | 0 <= i < |sq| && 0 <= k < |sq[i]|
      ensures sq[i][k] <= 32400.0
    {
      SquareAtMost(d[i][k]);
    }
    MeanAtMost(sq, 32400.0);
  }

  /** When predictions are already in range and no difference exceeds 180
      in magnitude, circular correction changes neither metric. */
  lemma CircCorrectionInertInRange(pred: Matrix, truth: Matrix)
    requires MetricInputs(pred, truth)
    requires forall i, k :: 0 <= i < |pred| && 0 <= k < |pred[i]| ==> -180.0 <= pred[i][k] <= 180.0
    requires forall i, k :: 0 <= i < |pred| && 0 <= k < |pred[i]| ==> Abs(pred[i][k] - truth[i][k]) <= 180.0
    ensures Mse(pred, truth, true) == Mse(pred, truth, false)
    ensures Mae(pred, truth, true) == Mae(pred, truth, false)
  {
    var c, p := Difference(pred, truth, true), Difference(pred, truth, false);
    forall i | 0 <= i < |pred|
      ensures c[i] == p[i]
    {
      assert |c[i]| == |p[i]|;
    }
    assert c == p;
  }

  /** A perfect prediction already in range scores zero in every column,
      with or without circular correction. */
  lemma PerfectPredictionScoresZero(pred: Matrix, circCorrection: bool)
    requires |pred| > 0 && Rect(pred)
    requires forall i, k :: 0 <= i < |pred| && 0 <= k < |pred[i]| ==> -180.0 <= pred[i][k] <= 180.0
    ensures forall k :: 0 <= k < Cols(pred) ==> Mae(pred, pred, circCorrection)[k] == 0.0
    ensures forall k :: 0 <= k < Cols(pred) ==> Mse(pred, pred, circCorrection)[k] == 0.0
  {
    var d := Difference(pred, pred, circCorrection);
    assert forall i, k :: 0 <= i < |d| && 0 <= k < |d[i]| ==> d[i][k] == 0.0;
    MeanOfZeros(MapEntries(d, Abs));
    MeanOfZeros(MapEntries(d, Square));
  }
}
