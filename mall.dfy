/**
 * The interquartile-range outlier helpers of wrangle_mall.py: by how much each
 * value of a series lies beyond Q3 + k * IQR, and the lower counterpart
 * exactly as the source writes it.
 */
module WrangleMall {
  import opened Stats

  /** Python's `max([a, b])`: the first of the largest. */
  function PyMax(a: real, b: real): real {
    if b > a then b else a
  }

  /** Python's `min([a, b])`: the first of the smallest. */
  function PyMin(a: real, b: real): real {
    if b < a then b else a
  }

  /** `series.quantile([0.25, 0.75])` with pandas' linear interpolation. */
  function Quartiles(series: seq<real>): (q: (real, real))
    requires |series| > 0
    ensures Sort(series)[0] <= q.0 <= q.1 <= Sort(series)[|series| - 1]
  {
    var s := Sort(series);
    QuantileMonotone(s, 0.25, 0.75);
    QuantileBounds(s, 0.25);
    QuantileBounds(s, 0.75);
    (Quantile(s, 0.25), Quantile(s, 0.75))
  }

  /** `q3 + k * iqr`, for the quartiles `q` of the series. */
  function UpperBound(q: (real, real), k: real): real {
    q.1 + k * (q.1 - q.0)
  }

  /** `q1 - k * iqr`, for the quartiles `q` of the series. */
  function LowerBound(q: (real, real), k: real): real {
    q.0 - k * (q.1 - q.0)
  }

  /**
   * get_upper_outliers(series, k): for each value, how far it lies above the
   * upper bound, or 0. An empty series maps to an empty series.
   */
  function GetUpperOutliers(series: seq<real>, k: real): (r: seq<real>)
    ensures |r| == |series|
    ensures forall i :: 0 <= i < |r| ==> r[i] >= 0.0
    ensures |series| > 0 ==> forall i :: 0 <= i < |r| ==>
      && (r[i] > 0.0 <==> series[i] > UpperBound(Quartiles(series), k))
      && (r[i] > 0.0 ==> r[i] == series[i] - UpperBound(Quartiles(series), k))
  {
    if |series| == 0 then []
    else
      var upper := UpperBound(Quartiles(series), k);
      seq(|series|, i requires 0 <= i < |series| => PyMax(series[i] - upper, 0.0))
  }

  /**
   * get_lower_outliers(series, k), with the source's `x + lower_bound`: each
   * result is at most 0, and it is negative exactly when `x < -lower_bound`,
   * where it equals `x + lower_bound`.
   */
  function GetLowerOutliers(series: seq<real>, k: real): (r: seq<real>)
    ensures |r| == |series|
    ensures forall i :: 0 <= i < |r| ==> r[i] <= 0.0
    ensures |series| > 0 ==> forall i :: 0 <= i < |r| ==>
      && (r[i] < 0.0 <==> series[i] < -LowerBound(Quartiles(series), k))
      && (r[i] < 0.0 ==> r[i] == series[i] + LowerBound(Quartiles(series), k))
  {
    if |series| == 0 then []
    else
      var lower := LowerBound(Quartiles(series), k);
      seq(|series|, i requires 0 <= i < |series| => PyMin(series[i] + lower, 0.0))
  }

  /**
   * With a non-negative k the fences lie outside the quartiles they are
   * built from: lower_bound <= Q1 <= Q3 <= upper_bound (Quartiles ensures
   * Q1 <= Q3, so IQR >= 0).
   */
  lemma FencesOutsideQuartiles(q: (real, real), k: real)
    requires q.0 <= q.1 && k >= 0.0
    ensures LowerBound(q, k) <= q.0 <= q.1 <= UpperBound(q, k)
  {
    NonNegativeProduct(k, q.1 - q.0);
  }

  /**
   * For example: for [1, 2, 3, 4, 100] and k = 1.5, Q1 = 2, Q3 = 4 and
   * the upper bound is 7, so only 100 lies beyond it, by 93.
   */
  lemma UpperOutliersExample(s: seq<real>)
    requires s == [1.0, 2.0, 3.0, 4.0, 100.0]
    ensures Quartiles(s) == (2.0, 4.0)
    ensures UpperBound(Quartiles(s), 1.5) == 7.0
    ensures GetUpperOutliers(s, 1.5) == [0.0, 0.0, 0.0, 0.0, 93.0]
  {
    QuartilesExample(s);
    ExcessesExample(s, GetUpperOutliers(s, 1.5));
  }

  lemma QuartilesExample(s: seq<real>)
    requires s == [1.0, 2.0, 3.0, 4.0, 100.0]
    ensures Quartiles(s) == (2.0, 4.0)
  {
    assert Quantile(s, 0.25) == 2.0 by { QuantileExample(s, 0.25, 1, 2.0); }
    assert Quantile(s, 0.75) == 4.0 by { QuantileExample(s, 0.75, 3, 4.0); }
    assert Sorted(s);
    QuartilesOfSorted(s);
  }

  /** On values already in order, the quartiles are read off directly. */
  lemma QuartilesOfSorted(s: seq<real>)
    requires |s| > 0 && Sorted(s)
    ensures Quartiles(s) == (Quantile(s, 0.25), Quantile(s, 0.75))
  {
    SortOfSorted(s);
  }

  /** A quantile that falls exactly on an order statistic is that statistic. */
  lemma QuantileExample(s: seq<real>, q: real, lo: nat, v: real)
    requires |s| > 1 && 0.0 <= q <= 1.0 && lo + 1 < |s|
    requires q * (|s| - 1) as real == lo as real && s[lo] == v
    ensures Quantile(s, q) == v
  {
    assert Floor(q, |s|) == lo;
  }

  lemma ExcessesExample(s: seq<real>, r: seq<real>)
    requires s == [1.0, 2.0, 3.0, 4.0, 100.0] && Quartiles(s) == (2.0, 4.0)
    requires r == GetUpperOutliers(s, 1.5)
    ensures r == [0.0, 0.0, 0.0, 0.0, 93.0]
  {
    assert UpperBound(Quartiles(s), 1.5) == 7.0;
    ExcessesBeyond(s, r, 7.0);
  }

  /** The excesses over an upper bound of 7, from the contract of GetUpperOutliers alone. */
  lemma ExcessesBeyond(s: seq<real>, r: seq<real>, upper: real)
    requires s == [1.0, 2.0, 3.0, 4.0, 100.0] && upper == 7.0 && |r| == |s|
    requires forall i :: 0 <= i < |r| ==>
      && r[i] >= 0.0
      && (r[i] > 0.0 <==> s[i] > upper)
      && (r[i] > 0.0 ==> r[i] == s[i] - upper)
    ensures r == [0.0, 0.0, 0.0, 0.0, 93.0]
  {
    assert r[0] == 0.0 && r[1] == 0.0 && r[2] == 0.0 && r[3] == 0.0 && r[4] == 93.0;
  }
}
