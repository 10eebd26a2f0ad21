/** The statistics over repetitions (google_benchmark/src/statistics.cc), and their agreement with those of
    Walltime, which are computed in another way. */
module Statistics {
  import opened Sums
  import opened Sorting
  import opened Walltime

  function StatisticsMean(v: seq<real>): real {
    if v == [] then 0.0 else SumReal(v, Itself()) * (1.0 / |v| as real)
  }

  lemma ReciprocalTimes(x: real, n: real)
    requires n > 0.0
    ensures x * (1.0 / n) * n == x
  {
    var r := 1.0 / n;
    assert r * n == 1.0;
    assert x * r * n == x * (r * n);
  }

  lemma MeanIsMean(v: seq<real>)
    requires v != []
    ensures IsMean(v, StatisticsMean(v))
  {
    ReciprocalTimes(SumReal(v, Itself()), |v| as real);
  }

  // ---------------------------------------------------------------- median

  /** std::nth_element. Callers may rely on the contract alone, which leaves the order on either side open. */
  method NthElement(c: array<real>, k: nat)
    requires k < c.Length
    modifies c
    ensures Selected(c[..], old(c[..]), k)
  {
    var sorted := Sort(c[..]);
    SortSorts(c[..]);
    var i := 0;
    while i < c.Length
      invariant 0 <= i <= c.Length && c[..i] == sorted[..i]
    {
      c[i] := sorted[i];
      i := i + 1;
    }
    assert c[..] == sorted;
    assert forall j :: 0 <= j < c.Length ==> c[..][j] == sorted[j];
  }

  method MaxElement(c: array<real>, k: nat) returns (max: real)
    requires 0 < k <= c.Length
    ensures IsGreatest(max, c[..k])
  {
    max := c[0];
    var i := 1;
    while i < k
      invariant 1 <= i <= k && IsGreatest(max, c[..i])
    {
      assert c[..i + 1] == c[..i] + [c[i]];
      if max < c[i] {
        max := c[i];
      }
      i := i + 1;
    }
  }

  lemma LastOfSort(s: seq<real>, max: real)
    requires s != [] && IsGreatest(max, s)
    ensures |Sort(s)| == |s| && Sort(s)[|s| - 1] == max
  {
    SortSorts(s);
    LastIsGreatest(Sort(s), s, max);
  }

  lemma LastIsGreatest(t: seq<real>, s: seq<real>, max: real)
    requires t != [] && Sorted(t) && multiset(t) == multiset(s) && IsGreatest(max, s)
    ensures t[|t| - 1] == max
  {
    assert t[|t| - 1] in multiset(t) && max in multiset(s);
    assert t[|t| - 1] in s && max in t;
  }

  /** The selected value is the middle one. */
  lemma MiddleOfSort(c: seq<real>, v: seq<real>, k: nat)
    requires Selected(c, v, k)
    ensures |Sort(v)| == |v| == |c| && Sort(v)[k] == c[k]
  {
    SelectedIsSorted(c, v, k);
    SortSorts(c[..k]);
    SortSorts(v);
    assert |multiset(c)| == |multiset(v)|;
  }

  /** The greatest value before it is the one before the middle. */
  lemma BeforeMiddle(c: seq<real>, v: seq<real>, k: nat, max: real)
    requires Selected(c, v, k) && k > 0 && IsGreatest(max, c[..k])
    ensures |Sort(v)| == |c| && Sort(v)[k - 1] == max
  {
    MiddleOfSort(c, v, k);
    SelectedIsSorted(c, v, k);
    LastOfSort(c[..k], max);
  }

  lemma MiddleQuantile(s: seq<real>)
    requires s != []
    ensures var k := |s| / 2;
      ComputeQuantile(s, 0.5) == if |s| % 2 == 1 then s[k] else (s[k] + s[k - 1]) / 2.0
  {
    var k := |s| / 2;
    var pos := 0.5 * (|s| - 1) as real;
    if |s| % 2 == 1 {
      assert |s| == 2 * k + 1;
      assert pos == k as real;
      assert pos.Floor == k;
    } else {
      assert |s| == 2 * k;
      assert pos == (k - 1) as real + 0.5;
      assert pos.Floor == k - 1;
    }
  }

  lemma MeanOfOne(v: seq<real>)
    requires |v| == 1
    ensures StatisticsMean(v) == v[0]
  {
    assert SumReal(v, Itself()) == v[0] by {
      assert v[1..] == [];
      assert SumReal(v, Itself()) == Itself()(v[0]) + SumReal(v[1..], Itself());
    }
    MeanIsMean(v);
  }

  lemma MedianOfOne(v: seq<real>)
    requires |v| == 1
    ensures StatisticsMean(v) == ComputeQuantile(Sort(v), 0.5)
  {
    MeanOfOne(v);
    SortSorts(v);
    EndsOfSort(v, v[0], v[0]);
    QuantileBounds(Sort(v), 0.5);
  }

  lemma MeanOfTwo(v: seq<real>)
    requires |v| == 2
    ensures StatisticsMean(v) == (v[0] + v[1]) / 2.0
  {
    SumOfTwo(v);
    MeanIsMean(v);
  }

  lemma MeansOfSame(v: seq<real>, s: seq<real>)
    requires multiset(v) == multiset(s)
    ensures |v| == |s| && StatisticsMean(v) == StatisticsMean(s)
  {
    assert |multiset(v)| == |v| && |multiset(s)| == |s|;
    SumRealOfSame(v, s, Itself());
  }

  lemma MedianOfTwo(v: seq<real>)
    requires |v| == 2
    ensures StatisticsMean(v) == ComputeQuantile(Sort(v), 0.5)
  {
    SortSorts(v);
    MeansOfSame(v, Sort(v));
    MeanOfTwo(Sort(v));
    MiddleQuantile(Sort(v));
  }

  lemma SumOfTwo(v: seq<real>)
    requires |v| == 2
    ensures SumReal(v, Itself()) == v[0] + v[1]
  {
    var tail := v[1..];
    assert tail[1..] == [];
    assert SumReal(tail, Itself()) == Itself()(tail[0]);
    assert SumReal(v, Itself()) == Itself()(v[0]) + SumReal(tail, Itself());
  }

  /** Selection and the maximum before it give the middle quantile of the sorted values. */
  method StatisticsMedian(v: seq<real>) returns (median: real)
    ensures median == ComputeQuantile(Sort(v), 0.5) && (v == [] ==> median == 0.0)
  {
    if |v| < 3 {
      if |v| == 1 {
        MedianOfOne(v);
      } else if |v| == 2 {
        MedianOfTwo(v);
      }
      return StatisticsMean(v);
    }
    var copy := new real[|v|](i requires 0 <= i < |v| => v[i]);
    assert copy[..] == v;
    var center := |v| / 2;
    NthElement(copy, center);
    ghost var c := copy[..];
    MiddleOfSort(c, v, center);
    MiddleQuantile(Sort(v));
    if |v| % 2 == 1 {
      return copy[center];
    }
    var center2 := MaxElement(copy, center);
    assert copy[..center] == c[..center];
    BeforeMiddle(c, v, center, center2);
    median := (copy[center] + center2) / 2.0;
  }

  // ---------------------------------------------------------------- standard deviation

  function SumSquares(v: seq<real>): real {
    SumReal(v, Squared(0.0))
  }

  function Sqrt(sqrt: real -> real, dat: real): real {
    if dat < 0.0 then 0.0 else sqrt(dat)
  }

  /** What StatisticsStdDev hands to the square root. */
  function Variance(v: seq<real>): real
    requires |v| >= 2
  {
    Corrected(|v| as real, SumSquares(v) * (1.0 / |v| as real), StatisticsMean(v))
  }

  function Corrected(n: real, avgSquares: real, mean: real): real
    requires n > 1.0
  {
    n / (n - 1.0) * (avgSquares - mean * mean)
  }

  function StatisticsStdDev(v: seq<real>, sqrt: real -> real): real {
    if v == [] then StatisticsMean(v) else if |v| == 1 then 0.0 else Sqrt(sqrt, Variance(v))
  }

  lemma SquareExpanded(x: real, m: real)
    ensures Squared(m)(x) == Squared(0.0)(x) - 2.0 * m * x + m * m
  {
  }

  function Expanded(squares: real, m: real, total: real, n: real): real {
    squares - 2.0 * m * total + m * m * n
  }

  lemma {:induction false} SumOfSquaresExpanded(v: seq<real>, m: real)
    ensures SumReal(v, Squared(m)) == Expanded(SumSquares(v), m, SumReal(v, Itself()), |v| as real)
  {
    if v != [] {
      SumOfSquaresExpanded(v[1..], m);
      SquareExpanded(v[0], m);
      OneMore(m * m, |v[1..]|);
      Distribute(2.0 * m, v[0], SumReal(v[1..], Itself()));
    }
  }

  lemma VarianceArithmetic(n: real, total: real, squares: real, m: real, variance: real, deviations: real)
    requires n > 1.0 && m * n == total
    requires variance == Corrected(n, squares * (1.0 / n), m) && deviations == Expanded(squares, m, total, n)
    ensures variance * (n - 1.0) == deviations
  {
    ReciprocalTimes(squares, n);
    var a := squares * (1.0 / n) - m * m;
    assert a * n == squares - m * m * n;
    assert m * total == m * m * n;
    CancelDivisor(n, n - 1.0, a);
  }

  lemma CancelDivisor(n: real, d: real, a: real)
    requires d > 0.0
    ensures n / d * a * d == a * n
  {
    var r := n / d;
    assert r * d == n;
    assert r * a * d == (r * d) * a;
  }

  /** The sum of the squared distances, with divisor n - 1. */
  ghost predicate IsSampleVariance(v: seq<real>, mean: real, variance: real) {
    variance * (|v| as real - 1.0) == SumReal(v, Squared(mean))
  }

  lemma CorrectedVariance(v: seq<real>, m: real, variance: real)
    requires |v| >= 2 && IsMean(v, m)
    requires variance == Corrected(|v| as real, SumSquares(v) * (1.0 / |v| as real), m)
    ensures IsSampleVariance(v, m, variance)
  {
    SumOfSquaresExpanded(v, m);
    VarianceArithmetic(|v| as real, SumReal(v, Itself()), SumSquares(v), m, variance, SumReal(v, Squared(m)));
  }

  /** The two formulas for the variance agree, up to their divisors n - 1 and n. */
  lemma VariancesAgree(v: seq<real>)
    requires |v| >= 2
    ensures IsSampleVariance(v, StatisticsMean(v), Variance(v))
  {
    MeanIsMean(v);
    CorrectedVariance(v, StatisticsMean(v), Variance(v));
  }

  lemma VarianceNotNegative(v: seq<real>)
    requires |v| >= 2
    ensures Variance(v) >= 0.0
  {
    VariancesAgree(v);
    SquaresNotNegative(v, StatisticsMean(v));
    NotNegative(Variance(v), |v| as real - 1.0);
  }

  lemma NotNegative(x: real, d: real)
    requires d > 0.0 && x * d >= 0.0
    ensures x >= 0.0
  {
    if x < 0.0 {
      ProductGrows(x, 0.0, d);
    }
  }

  /** The clamp never acts, and the square of the result is the variance of Walltime with divisor n - 1. */
  lemma StdDevsAgree(v: seq<real>, sqrt: real -> real, stdev: real)
    requires |v| >= 2 && IsSqrt(sqrt) && IsDeviation(v, StatisticsMean(v), stdev)
    ensures StatisticsStdDev(v, sqrt) == sqrt(Variance(v)) >= 0.0
    ensures var r := StatisticsStdDev(v, sqrt);
      r * r * (|v| as real - 1.0) == stdev * stdev * |v| as real
  {
    VarianceNotNegative(v);
    VariancesAgree(v);
    SquareOfRoot(v, StatisticsMean(v), Variance(v), sqrt(Variance(v)), stdev);
  }

  lemma SquareOfRoot(v: seq<real>, mean: real, variance: real, root: real, stdev: real)
    requires IsSampleVariance(v, mean, variance) && root * root == variance && IsDeviation(v, mean, stdev)
    ensures root * root * (|v| as real - 1.0) == stdev * stdev * |v| as real
  {
  }

  /** The deviation of any number of repetitions: not negative, and its square times their number less one, or
      times one when there are fewer than two, is the sum of the squared distances from the mean. */
  lemma StdDevIsRoot(v: seq<real>, sqrt: real -> real)
    requires IsSqrt(sqrt)
    ensures var r := StatisticsStdDev(v, sqrt);
      r >= 0.0 && r * r * (if |v| >= 2 then |v| as real - 1.0 else 1.0) == SumReal(v, Squared(StatisticsMean(v)))
  {
    if |v| >= 2 {
      VarianceNotNegative(v);
      VariancesAgree(v);
    } else if |v| == 1 {
      MeanOfOne(v);
      assert v[1..] == [];
    }
  }
}
