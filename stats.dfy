/**
 * The statistics the wrangling code borrows from Python, pandas and
 * scikit-learn, over exact reals: Python's `round`, the mean, the median,
 * the most frequent value, and pandas' default (linear) quantile.
 */
module Stats {
  import opened Frame

  // ---------------------------------------------------------------------------
  // Python's round(): nearest integer, halves to the even neighbour.

  function RoundHalfEven(x: real): (n: int)
    ensures -1.0 / 2.0 <= x - n as real <= 1.0 / 2.0
    ensures x - n as real == 1.0 / 2.0 || n as real - x == 1.0 / 2.0 ==> n % 2 == 0
  {
    var f := x.Floor;
    var d := x - f as real;
    if d < 1.0 / 2.0 then f
    else if d > 1.0 / 2.0 then f + 1
    else if f % 2 == 0 then f
    else f + 1
  }

  /** The two properties of RoundHalfEven determine it: there is one such integer. */
  lemma RoundHalfEvenUnique(x: real, m: int)
    requires -1.0 / 2.0 <= x - m as real <= 1.0 / 2.0
    requires x - m as real == 1.0 / 2.0 || m as real - x == 1.0 / 2.0 ==> m % 2 == 0
    ensures m == RoundHalfEven(x)
  {
    var n := RoundHalfEven(x);
  }

  // ---------------------------------------------------------------------------
  // Sorting reals (what median and quantile work on).

  predicate Sorted(s: seq<real>) {
    forall i, j :: 0 <= i <= j < |s| ==> s[i] <= s[j]
  }

  function Insert(x: real, s: seq<real>): (r: seq<real>)
    requires Sorted(s)
    ensures |r| == |s| + 1 && r[0] == (if s == [] || x <= s[0] then x else s[0])
    ensures Sorted(r) && multiset(r) == multiset(s) + multiset{x}
  {
    if s == [] then [x]
    else if x <= s[0] then
      ConsSorted(x, s);
      [x] + s
    else
      SortedTail(s);
      var rest := Insert(x, s[1..]);
      assert s[0] <= rest[0];
      ConsSorted(s[0], rest);
      TailMultiset(s);
      [s[0]] + rest
  }

  lemma ConsSorted(x: real, r: seq<real>)
    requires Sorted(r) && (r == [] || x <= r[0])
    ensures Sorted([x] + r)
  {
  }

  /** Ascending order of the same values: a sorted permutation of `s`. */
  function Sort(s: seq<real>): (r: seq<real>)
    ensures |r| == |s| && Sorted(r) && multiset(r) == multiset(s)
  {
    if s == [] then []
    else
      assert s == [s[0]] + s[1..];
      Insert(s[0], Sort(s[1..]))
  }

  lemma SortedHeadIsMin(s: seq<real>, x: real)
    requires Sorted(s) && x in multiset(s)
    ensures s[0] <= x
  {
    var i :| 0 <= i < |s| && s[i] == x;
  }

  /** Two sorted arrangements of the same values are equal, so Sort depends only on the multiset. */
  lemma {:induction false} SortedUnique(a: seq<real>, b: seq<real>)
    requires Sorted(a) && Sorted(b) && multiset(a) == multiset(b)
    ensures a == b
  {
    if a != [] {
      assert |b| == |a| by { assert |multiset(a)| == |multiset(b)|; }
      assert a[0] in multiset(b) && b[0] in multiset(a);
      SortedHeadIsMin(b, a[0]);
      SortedHeadIsMin(a, b[0]);
      assert a[0] == b[0];
      TailMultiset(a);
      TailMultiset(b);
      SortedTail(a);
      SortedTail(b);
      SortedUnique(a[1..], b[1..]);
      SameHeadAndTail(a, b);
    }
  }

  lemma SameHeadAndTail(a: seq<real>, b: seq<real>)
    requires a != [] && b != [] && a[0] == b[0] && a[1..] == b[1..]
    ensures a == b
  {
    assert a == [a[0]] + a[1..];
    assert b == [b[0]] + b[1..];
  }

  lemma SortedTail(a: seq<real>)
    requires a != [] && Sorted(a)
    ensures Sorted(a[1..])
  {
  }

  lemma TailMultiset(a: seq<real>)
    requires a != []
    ensures multiset(a[1..]) == multiset(a) - multiset{a[0]}
  {
    assert a == [a[0]] + a[1..];
  }

  /** Sorting already sorted values changes nothing. */
  lemma SortOfSorted(s: seq<real>)
    requires Sorted(s)
    ensures Sort(s) == s
  {
    SortedUnique(Sort(s), s);
  }

  // ---------------------------------------------------------------------------
  // Mean and median (scikit-learn's `mean` and `median` strategies).

  function Sum(s: seq<real>): real {
    if s == [] then 0.0 else s[0] + Sum(s[1..])
  }

  function Mean(s: seq<real>): (m: real)
    requires |s| > 0
    ensures m * |s| as real == Sum(s)
  {
    Sum(s) / |s| as real
  }

  lemma {:induction false} SumBounds(s: seq<real>, lo: real, hi: real)
    requires forall i :: 0 <= i < |s| ==> lo <= s[i] <= hi
    ensures |s| as real * lo <= Sum(s) <= |s| as real * hi
  {
    if s != [] {
      SumBounds(s[1..], lo, hi);
    }
  }

  /** The mean lies between any lower and upper bound of the values. */
  lemma MeanBounds(s: seq<real>, lo: real, hi: real)
    requires |s| > 0
    requires forall i :: 0 <= i < |s| ==> lo <= s[i] <= hi
    ensures lo <= Mean(s) <= hi
  {
    SumBounds(s, lo, hi);
  }

  /** numpy's median: the middle order statistic, or the mean of the two middle ones. */
  function Median(s: seq<real>): (m: real)
    requires |s| > 0
  {
    Middle(Sort(s))
  }

  /** The middle element of sorted values, or the mean of the two middle ones. */
  function Middle(t: seq<real>): real
    requires |t| > 0
  {
    var n := |t|;
    if n % 2 == 1 then t[n / 2] else (t[n / 2 - 1] + t[n / 2]) / 2.0
  }

  lemma SortedBounds(s: seq<real>, i: nat)
    requires |s| > 0 && i < |s|
    ensures |Sort(s)| == |s|
    ensures Sort(s)[0] <= s[i] <= Sort(s)[|s| - 1]
    ensures Sort(s)[0] in s && Sort(s)[|s| - 1] in s
  {
    var t := Sort(s);
    assert |multiset(t)| == |multiset(s)|;
    assert s[i] in multiset(t);
    assert t[0] in multiset(s) && t[|t| - 1] in multiset(s);
  }

  /**
   * The median lies between the smallest and largest value, and for an odd
   * number of values it is one of them; it does not depend on their order.
   */
  lemma MedianProperties(s: seq<real>, s': seq<real>)
    requires |s| > 0 && multiset(s') == multiset(s)
    ensures forall i :: 0 <= i < |s| ==> Sort(s)[0] <= s[i] <= Sort(s)[|s| - 1]
    ensures Sort(s)[0] <= Median(s) <= Sort(s)[|s| - 1]
    ensures |s| % 2 == 1 ==> Median(s) in s
    ensures |s'| == |s| && Median(s') == Median(s)
  {
    forall i | 0 <= i < |s| ensures Sort(s)[0] <= s[i] <= Sort(s)[|s| - 1] {
      SortedBounds(s, i);
    }
    MedianBetween(s);
    if |s| % 2 == 1 {
      MedianOdd(s);
    }
    MedianPermutation(s, s');
  }

  lemma MedianBetween(s: seq<real>)
    requires |s| > 0
    ensures Sort(s)[0] <= Median(s) <= Sort(s)[|s| - 1]
  {
    MiddleBetween(Sort(s));
  }

  lemma MiddleBetween(t: seq<real>)
    requires |t| > 0 && Sorted(t)
    ensures t[0] <= Middle(t) <= t[|t| - 1]
  {
    var n := |t|;
    var h := n / 2;
    SortedEnds(t, h);
    if n % 2 == 0 {
      SortedEnds(t, h - 1);
      Average(t[h - 1], t[h], t[0], t[n - 1]);
    }
  }

  lemma SortedEnds(t: seq<real>, i: nat)
    requires Sorted(t) && i < |t|
    ensures t[0] <= t[i] <= t[|t| - 1]
  {
  }

  lemma Average(a: real, b: real, lo: real, hi: real)
    requires lo <= a <= hi && lo <= b <= hi
    ensures lo <= (a + b) / 2.0 <= hi
  {
  }

  lemma MedianOdd(s: seq<real>)
    requires |s| % 2 == 1
    ensures Median(s) in s
  {
    var t := Sort(s);
    assert t[|s| / 2] in multiset(t);
  }

  lemma MedianPermutation(s: seq<real>, s': seq<real>)
    requires |s| > 0 && multiset(s') == multiset(s)
    ensures |s'| == |s| && Median(s') == Median(s)
  {
    assert |s'| == |s| by { assert |multiset(s')| == |multiset(s)|; }
    SortedUnique(Sort(s'), Sort(s));
  }

  // ---------------------------------------------------------------------------
  // Most frequent value (scikit-learn's `most_frequent`: ties go to the smallest).

  predicate StrLess(a: string, b: string) {
    if a == [] then b != []
    else if b == [] then false
    else if a[0] != b[0] then a[0] < b[0]
    else StrLess(a[1..], b[1..])
  }

  /** Order used to break ties: numbers below strings, numbers by value, strings lexicographically. */
  predicate ValueLess(a: Value, b: Value) {
    match (a, b)
    case (Num(x), Num(y)) => x < y
    case (Num(_), Str(_)) => true
    case (Str(_), Num(_)) => false
    case (Str(x), Str(y)) => StrLess(x, y)
  }

  lemma {:induction false} StrLessIrreflexive(a: string)
    ensures !StrLess(a, a)
  {
    if a != [] {
      StrLessIrreflexive(a[1..]);
    }
  }

  lemma {:induction false} StrLessTransitive(a: string, b: string, c: string)
    requires StrLess(a, b) && StrLess(b, c)
    ensures StrLess(a, c)
  {
    if a != [] && b != [] && c != [] && a[0] == b[0] && b[0] == c[0] {
      StrLessTransitive(a[1..], b[1..], c[1..]);
    }
  }

  lemma {:induction false} StrLessTotal(a: string, b: string)
    requires a != b
    ensures StrLess(a, b) || StrLess(b, a)
  {
    if a != [] && b != [] && a[0] == b[0] {
      assert a == [a[0]] + a[1..] && b == [b[0]] + b[1..];
      StrLessTotal(a[1..], b[1..]);
    }
  }

  lemma ValueLessIsStrictTotalOrder()
    ensures forall a :: !ValueLess(a, a)
    ensures forall a, b, c :: ValueLess(a, b) && ValueLess(b, c) ==> ValueLess(a, c)
    ensures forall a, b :: a != b ==> ValueLess(a, b) || ValueLess(b, a)
  {
    forall a ensures !ValueLess(a, a) {
      if a.Str? { StrLessIrreflexive(a.s); }
    }
    forall a, b, c | ValueLess(a, b) && ValueLess(b, c) ensures ValueLess(a, c) {
      if a.Str? && b.Str? && c.Str? { StrLessTransitive(a.s, b.s, c.s); }
    }
    forall a, b | a != b ensures ValueLess(a, b) || ValueLess(b, a) {
      if a.Str? && b.Str? { StrLessTotal(a.s, b.s); }
    }
  }

  function Occurrences(vs: seq<Value>, v: Value): nat {
    multiset(vs)[v]
  }

  /** `x` would replace `y` as the most frequent value: it occurs more often, or as often and is smaller. */
  predicate Beats(vs: seq<Value>, x: Value, y: Value) {
    Occurrences(vs, x) > Occurrences(vs, y)
    || (Occurrences(vs, x) == Occurrences(vs, y) && ValueLess(x, y))
  }

  /** The winner among the first `k` values. */
  function BestOf(vs: seq<Value>, k: nat): (m: Value)
    requires 0 < k <= |vs|
    ensures m in vs[..k]
    ensures forall j :: 0 <= j < k ==> !Beats(vs, vs[j], m)
  {
    if k == 1 then
      ValueLessIsStrictTotalOrder();
      vs[0]
    else
      var b := BestOf(vs, k - 1);
      ValueLessIsStrictTotalOrder();
      assert vs[..k] == vs[..k - 1] + [vs[k - 1]];
      if Beats(vs, vs[k - 1], b) then vs[k - 1] else b
  }

  /** `m` is a mode of `vs` and the smallest of its modes. */
  predicate IsSmallestMode(vs: seq<Value>, m: Value) {
    && m in vs
    && (forall v :: v in vs ==> Occurrences(vs, v) <= Occurrences(vs, m))
    && (forall v :: v in vs && Occurrences(vs, v) == Occurrences(vs, m) ==> v == m || ValueLess(m, v))
  }

  function MostFrequent(vs: seq<Value>): (m: Value)
    requires |vs| > 0
    ensures IsSmallestMode(vs, m)
  {
    assert vs[..|vs|] == vs;
    ValueLessIsStrictTotalOrder();
    BestOf(vs, |vs|)
  }

  /** There is only one smallest mode. */
  lemma SmallestModeUnique(vs: seq<Value>, m: Value, m': Value)
    requires IsSmallestMode(vs, m) && IsSmallestMode(vs, m')
    ensures m == m'
  {
    ValueLessIsStrictTotalOrder();
  }

  // ---------------------------------------------------------------------------
  // pandas' default quantile: linear interpolation between order statistics.

  lemma NonNegativeProduct(a: real, b: real)
    requires a >= 0.0 && b >= 0.0
    ensures a * b >= 0.0
  {
  }

  lemma ProductMonotone(a: real, b: real, c: real)
    requires a <= b && c >= 0.0
    ensures a * c <= b * c
  {
    NonNegativeProduct(b - a, c);
  }

  /** A point `f` of the way from `a` to `b` lies between them. */
  lemma Between(a: real, b: real, f: real)
    requires a <= b && 0.0 <= f <= 1.0
    ensures a <= a + f * (b - a) <= b
  {
    NonNegativeProduct(f, b - a);
    ProductMonotone(f, 1.0, b - a);
  }

  /** Position of the `q` quantile among `n` order statistics: its floor and fraction. */
  function Floor(q: real, n: nat): (lo: int)
    requires n > 0 && 0.0 <= q <= 1.0
    ensures 0 <= lo < n
    ensures lo as real <= q * (n - 1) as real < lo as real + 1.0
  {
    ScaledFraction(q, (n - 1) as real);
    FloorWithin(q * (n - 1) as real, n - 1);
    (q * (n - 1) as real).Floor
  }

  lemma ScaledFraction(q: real, m: real)
    requires 0.0 <= q <= 1.0 && m >= 0.0
    ensures 0.0 <= q * m <= m
  {
    NonNegativeProduct(q, m);
    ProductMonotone(q, 1.0, m);
  }

  lemma FloorWithin(x: real, m: int)
    requires 0.0 <= x <= m as real
    ensures 0 <= x.Floor <= m
    ensures x.Floor as real <= x < x.Floor as real + 1.0
  {
  }

  function Quantile(s: seq<real>, q: real): (r: real)
    requires |s| > 0 && 0.0 <= q <= 1.0
  {
    var lo := Floor(q, |s|);
    var frac := q * (|s| - 1) as real - lo as real;
    if lo + 1 < |s| then s[lo] + frac * (s[lo + 1] - s[lo]) else s[lo]
  }

  /** On sorted values the quantile lies between the order statistics on either side of its position. */
  lemma QuantileBetween(s: seq<real>, q: real)
    requires |s| > 0 && 0.0 <= q <= 1.0 && Sorted(s)
    ensures s[Floor(q, |s|)] <= Quantile(s, q)
    ensures Floor(q, |s|) + 1 < |s| ==> Quantile(s, q) <= s[Floor(q, |s|) + 1]
    ensures Floor(q, |s|) + 1 == |s| ==> Quantile(s, q) == s[|s| - 1]
  {
    var lo := Floor(q, |s|);
    if lo + 1 < |s| {
      Between(s[lo], s[lo + 1], q * (|s| - 1) as real - lo as real);
    }
  }

  lemma QuantileBounds(s: seq<real>, q: real)
    requires |s| > 0 && 0.0 <= q <= 1.0 && Sorted(s)
    ensures s[0] <= Quantile(s, q) <= s[|s| - 1]
  {
    QuantileBetween(s, q);
  }

  /** On sorted values the quantile never decreases as the fraction grows. */
  lemma QuantileMonotone(s: seq<real>, p: real, q: real)
    requires |s| > 0 && 0.0 <= p <= q <= 1.0 && Sorted(s)
    ensures Quantile(s, p) <= Quantile(s, q)
  {
    FloorMonotone(p, q, |s|);
    var lp, lq := Floor(p, |s|), Floor(q, |s|);
    if lp == lq {
      SameFloorMonotone(s, p, q);
    } else {
      QuantileBetween(s, p);
      QuantileBetween(s, q);
      assert s[lp + 1] <= s[lq];
    }
  }

  lemma FloorMonotone(p: real, q: real, n: nat)
    requires n > 0 && 0.0 <= p <= q <= 1.0
    ensures Floor(p, n) <= Floor(q, n)
  {
    var m := (n - 1) as real;
    ProductMonotone(p, q, m);
    RealFloorMonotone(p * m, q * m);
  }

  lemma RealFloorMonotone(x: real, y: real)
    requires x <= y
    ensures x.Floor <= y.Floor
  {
  }

  lemma SameFloorMonotone(s: seq<real>, p: real, q: real)
    requires |s| > 0 && 0.0 <= p <= q <= 1.0 && Sorted(s)
    requires Floor(p, |s|) == Floor(q, |s|)
    ensures Quantile(s, p) <= Quantile(s, q)
  {
    var lo := Floor(p, |s|);
    if lo + 1 < |s| {
      assert s[lo] <= s[lo + 1];
      InterpolationMonotone(s[lo], s[lo + 1], p, q, (|s| - 1) as real, lo as real);
    }
  }

  lemma InterpolationMonotone(a: real, b: real, p: real, q: real, n: real, lo: real)
    requires a <= b && p <= q && n >= 0.0
    ensures a + (p * n - lo) * (b - a) <= a + (q * n - lo) * (b - a)
  {
    ProductMonotone(p, q, n);
    ProductMonotone(p * n - lo, q * n - lo, b - a);
  }
}
