/** The statistics of a walltime benchmark (core/src/walltime.cpp), over the reals. */
module Walltime {
  import opened Sums
  import opened Sorting

  datatype BenchmarkStats = BenchmarkStats(
    min: real, max: real, mean: real, stdev: real,
    q1: real, median: real, q3: real,
    rounds: nat, totalTime: real, iqrOutlierRounds: nat, stdevOutlierRounds: nat, iterPerRound: int)

  // ---------------------------------------------------------------- quantiles

  /** The value at a real position of a sorted sequence, linear between neighbours. */
  function Interpolate(s: seq<real>, pos: real): real
    requires s != [] && 0.0 <= pos <= (|s| - 1) as real
  {
    var k := pos.Floor;
    var d := pos - k as real;
    if k + 1 < |s| then s[k] + d * (s[k + 1] - s[k]) else s[k]
  }

  lemma PositionInRange(q: real, n: int)
    requires 0.0 <= q <= 1.0 && n >= 1
    ensures 0.0 <= q * (n - 1) as real <= (n - 1) as real
  {
    var top := (n - 1) as real;
    assert top - q * top == (1.0 - q) * top;
  }

  function ComputeQuantile(sorted: seq<real>, quantile: real): real
    requires 0.0 <= quantile <= 1.0
  {
    if sorted == [] then 0.0
    else
      PositionInRange(quantile, |sorted|);
      Interpolate(sorted, quantile * (|sorted| - 1) as real)
  }

  lemma Between(a: real, b: real, d: real)
    requires a <= b && 0.0 <= d <= 1.0
    ensures a <= a + d * (b - a) <= b
  {
    assert b - (a + d * (b - a)) == (1.0 - d) * (b - a);
  }

  /** The value lies between those of the two neighbouring indices. */
  lemma InterpolateBetween(s: seq<real>, pos: real)
    requires Sorted(s) && s != [] && 0.0 <= pos <= (|s| - 1) as real
    ensures s[pos.Floor] <= Interpolate(s, pos)
    ensures pos.Floor + 1 < |s| ==> Interpolate(s, pos) <= s[pos.Floor + 1]
    ensures s[0] <= Interpolate(s, pos) <= s[|s| - 1]
  {
    var k := pos.Floor;
    if k + 1 < |s| {
      var d := pos - k as real;
      Between(s[k], s[k + 1], d);
      assert Interpolate(s, pos) == s[k] + d * (s[k + 1] - s[k]);
    }
  }

  lemma ProductMonotone(p: real, q: real, w: real)
    requires p <= q && w >= 0.0
    ensures q * w - p * w >= 0.0
  {
    assert (q - p) * w >= 0.0;
  }

  lemma ProductGrows(p: real, q: real, w: real)
    requires p < q && w > 0.0
    ensures q * w - p * w > 0.0
  {
    assert (q - p) * w > 0.0;
  }

  lemma InterpolateMonotone(s: seq<real>, p: real, q: real)
    requires Sorted(s) && s != [] && 0.0 <= p <= q <= (|s| - 1) as real
    ensures Interpolate(s, p) <= Interpolate(s, q)
  {
    var k, l := p.Floor, q.Floor;
    if k < l {
      InterpolateBetween(s, p);
      InterpolateBetween(s, q);
      assert s[k + 1] <= s[l];
    } else {
      SegmentMonotone(s, k, p, q);
    }
  }

  lemma SegmentMonotone(s: seq<real>, k: int, p: real, q: real)
    requires Sorted(s) && s != [] && 0.0 <= p <= q <= (|s| - 1) as real && p.Floor == k == q.Floor
    ensures Interpolate(s, p) <= Interpolate(s, q)
  {
    if k + 1 < |s| {
      var a, w, d, e := s[k], s[k + 1] - s[k], p - k as real, q - k as real;
      ProductMonotone(d, e, w);
      assert Interpolate(s, p) == a + d * w;
      assert Interpolate(s, q) == a + e * w;
    }
  }

  /** A larger quantile is never smaller. */
  lemma QuantileMonotone(s: seq<real>, p: real, q: real)
    requires Sorted(s) && 0.0 <= p <= q <= 1.0
    ensures ComputeQuantile(s, p) <= ComputeQuantile(s, q)
  {
    if s != [] {
      PositionInRange(p, |s|);
      PositionInRange(q, |s|);
      ProductMonotone(p, q, (|s| - 1) as real);
      InterpolateMonotone(s, p * (|s| - 1) as real, q * (|s| - 1) as real);
    }
  }

  /** All quantiles lie between the least and the greatest value. */
  lemma QuantileBounds(s: seq<real>, q: real)
    requires Sorted(s) && s != [] && 0.0 <= q <= 1.0
    ensures s[0] <= ComputeQuantile(s, q) <= s[|s| - 1]
  {
    PositionInRange(q, |s|);
    InterpolateBetween(s, q * (|s| - 1) as real);
  }

  /** The least and the greatest value are the first and the last quantile. */
  lemma QuantileEnds(s: seq<real>)
    requires s != []
    ensures ComputeQuantile(s, 0.0) == s[0] && ComputeQuantile(s, 1.0) == s[|s| - 1]
  {
    InterpolateEnds(s, 0.0);
    InterpolateEnds(s, (|s| - 1) as real);
  }

  lemma InterpolateEnds(s: seq<real>, pos: real)
    requires s != [] && 0.0 <= pos <= (|s| - 1) as real
    ensures pos == 0.0 ==> Interpolate(s, pos) == s[0]
    ensures pos == (|s| - 1) as real ==> Interpolate(s, pos) == s[|s| - 1]
  {
  }

  /** From one index to the next the value moves from one element to the other in proportion. */
  lemma AffineBetweenIndices(s: seq<real>, k: nat, d: real)
    requires k + 1 < |s| && 0.0 <= d <= 1.0
    ensures Interpolate(s, k as real + d) == (1.0 - d) * s[k] + d * s[k + 1]
  {
    var pos := k as real + d;
    if d < 1.0 {
      assert pos.Floor == k;
      assert (1.0 - d) * s[k] == s[k] - d * s[k];
    } else {
      InterpolateAtIndex(s, k + 1, pos);
      assert d == 1.0;
    }
  }

  /** With 4m + 1 values the quartiles are the values at m, 2m and 3m. */
  lemma QuartilesAtIndices(s: seq<real>, m: nat)
    requires |s| == 4 * m + 1
    ensures ComputeQuantile(s, 0.25) == s[m]
    ensures ComputeQuantile(s, 0.5) == s[2 * m]
    ensures ComputeQuantile(s, 0.75) == s[3 * m]
  {
    InterpolateAtIndex(s, m, 0.25 * (|s| - 1) as real);
    InterpolateAtIndex(s, 2 * m, 0.5 * (|s| - 1) as real);
    InterpolateAtIndex(s, 3 * m, 0.75 * (|s| - 1) as real);
  }

  lemma InterpolateAtIndex(s: seq<real>, k: nat, pos: real)
    requires k < |s| && pos == k as real
    ensures Interpolate(s, pos) == s[k]
  {
    assert pos.Floor == k;
  }

  // ---------------------------------------------------------------- what the statistics are

  function Itself(): real -> real {
    (x: real) => x
  }

  function Squared(mean: real): real -> real {
    (x: real) => (x - mean) * (x - mean)
  }

  predicate IsOutside(x: real, low: real, high: real) {
    x < low || x > high
  }

  function Outside(low: real, high: real): real -> int {
    (x: real) => if IsOutside(x, low, high) then 1 else 0
  }

  function Map<T, U>(s: seq<T>, f: T -> U): (r: seq<U>)
    ensures |r| == |s| && forall i :: 0 <= i < |s| ==> r[i] == f(s[i])
  {
    seq(|s|, i requires 0 <= i < |s| => f(s[i]))
  }

  /** One round: its iterations and its time. */
  datatype Round = Round(iters: nat, timeNs: real)

  function Rounds(iters: seq<nat>, times: seq<real>): (r: seq<Round>)
    requires |iters| == |times|
    ensures |r| == |iters| && forall i :: 0 <= i < |r| ==> r[i] == Round(iters[i], times[i])
  {
    seq(|iters|, i requires 0 <= i < |iters| => Round(iters[i], times[i]))
  }

  function PerIteration(): Round -> real {
    (r: Round) => if r.iters == 0 then 0.0 else r.timeNs / r.iters as real
  }

  function Time(): Round -> real {
    (r: Round) => r.timeNs
  }

  function Iters(): Round -> int {
    (r: Round) => r.iters
  }

  ghost predicate IsLeast(x: real, s: seq<real>) {
    x in s && forall y :: y in s ==> x <= y
  }

  ghost predicate IsGreatest(x: real, s: seq<real>) {
    x in s && forall y :: y in s ==> y <= x
  }

  ghost predicate IsMean(p: seq<real>, mean: real) {
    p != [] && mean * |p| as real == SumReal(p, Itself())
  }

  /** The root of the mean square distance. */
  ghost predicate IsDeviation(p: seq<real>, mean: real, sd: real) {
    p != [] && sd >= 0.0 && sd * sd * |p| as real == SumReal(p, Squared(mean))
  }

  function BeyondDeviation(p: seq<real>, mean: real, sd: real): int {
    Sum(p, Outside(mean - 3.0 * sd, mean + 3.0 * sd))
  }

  function BeyondQuartiles(p: seq<real>, q1: real, q3: real): int {
    Sum(p, Outside(q1 - 1.5 * (q3 - q1), q3 + 1.5 * (q3 - q1)))
  }

  ghost predicate AreQuartiles(p: seq<real>, q1: real, median: real, q3: real) {
    && q1 == ComputeQuantile(Sort(p), 0.25)
    && median == ComputeQuantile(Sort(p), 0.5)
    && q3 == ComputeQuantile(Sort(p), 0.75)
  }

  /** The statistics of the times per iteration, in whatever order the rounds are. */
  ghost predicate DescribesTimes(p: seq<real>, st: BenchmarkStats) {
    && IsLeast(st.min, p) && IsGreatest(st.max, p)
    && IsMean(p, st.mean) && IsDeviation(p, st.mean, st.stdev)
    && AreQuartiles(p, st.q1, st.median, st.q3)
    && st.stdevOutlierRounds == BeyondDeviation(p, st.mean, st.stdev)
    && st.iqrOutlierRounds == BeyondQuartiles(p, st.q1, st.q3)
  }

  ghost predicate IsStats(rounds: seq<Round>, st: BenchmarkStats) {
    && rounds != [] && DescribesTimes(Map(rounds, PerIteration()), st)
    && st.rounds == |rounds|
    && st.totalTime * 1000000000.0 == SumReal(rounds, Time())
    && st.iterPerRound == Sum(rounds, Iters()) / |rounds|
  }

  // ---------------------------------------------------------------- bounds

  /** A total of n values between lo and hi. */
  ghost predicate Within(total: real, n: real, lo: real, hi: real) {
    total - lo * n >= 0.0 && hi * n - total >= 0.0
  }

  lemma WithinMore(total: real, n: int, lo: real, hi: real, x: real)
    requires Within(total, n as real, lo, hi) && lo <= x <= hi
    ensures Within(x + total, (n + 1) as real, lo, hi)
  {
    OneMore(lo, n);
    OneMore(hi, n);
  }

  lemma {:induction false} SumRealBounds(s: seq<real>, lo: real, hi: real)
    requires forall i :: 0 <= i < |s| ==> lo <= s[i] <= hi
    ensures Within(SumReal(s, Itself()), |s| as real, lo, hi)
  {
    if s != [] {
      SumRealBounds(s[1..], lo, hi);
      WithinMore(SumReal(s[1..], Itself()), |s[1..]|, lo, hi, s[0]);
    }
  }

  lemma QuotientBounds(x: real, n: real, lo: real, hi: real)
    requires n > 0.0 && x * n - lo * n >= 0.0 && hi * n - x * n >= 0.0
    ensures lo <= x <= hi
  {
    if x < lo {
      ProductGrows(x, lo, n);
    }
    if x > hi {
      ProductGrows(hi, x, n);
    }
  }

  lemma MeanOfBounds(total: real, n: real, mean: real, min: real, max: real)
    requires n > 0.0 && mean * n == total && Within(total, n, min, max)
    ensures min <= mean <= max
  {
    QuotientBounds(mean, n, min, max);
  }

  lemma MeanBetween(p: seq<real>, mean: real, min: real, max: real)
    requires IsLeast(min, p) && IsGreatest(max, p) && IsMean(p, mean)
    ensures min <= mean <= max
  {
    assert forall i :: 0 <= i < |p| ==> p[i] in p;
    SumRealBounds(p, min, max);
    MeanOfBounds(SumReal(p, Itself()), |p| as real, mean, min, max);
  }

  lemma QuartilesOrdered(p: seq<real>, min: real, max: real, q1: real, median: real, q3: real)
    requires IsLeast(min, p) && IsGreatest(max, p) && AreQuartiles(p, q1, median, q3)
    ensures min <= q1 <= median <= q3 <= max
  {
    SortSorts(p);
    EndsOfSort(p, min, max);
    QuantileMonotone(Sort(p), 0.25, 0.5);
    QuantileMonotone(Sort(p), 0.5, 0.75);
    QuantileBounds(Sort(p), 0.25);
    QuantileBounds(Sort(p), 0.75);
  }

  /** min <= q1 <= median <= q3 <= max and min <= mean <= max. */
  lemma StatsOrdered(rounds: seq<Round>, st: BenchmarkStats)
    requires IsStats(rounds, st)
    ensures st.min <= st.q1 <= st.median <= st.q3 <= st.max
    ensures st.min <= st.mean <= st.max
  {
    var p := Map(rounds, PerIteration());
    QuartilesOrdered(p, st.min, st.max, st.q1, st.median, st.q3);
    MeanBetween(p, st.mean, st.min, st.max);
  }

  lemma EndsOfSort(p: seq<real>, min: real, max: real)
    requires p != [] && IsLeast(min, p) && IsGreatest(max, p)
    ensures |Sort(p)| == |p| && Sort(p)[0] == min && Sort(p)[|p| - 1] == max
  {
    SortSorts(p);
    EndsOfSorted(Sort(p), p, min, max);
  }

  lemma EndsOfSorted(s: seq<real>, p: seq<real>, min: real, max: real)
    requires s != [] && Sorted(s) && multiset(s) == multiset(p) && |s| == |p|
    requires IsLeast(min, p) && IsGreatest(max, p)
    ensures s[0] == min && s[|s| - 1] == max
  {
    assert s[0] in multiset(s) && s[|s| - 1] in multiset(s);
    assert s[0] in p && s[|s| - 1] in p;
    assert min in multiset(p) && max in multiset(p);
    assert min in s && max in s;
  }

  lemma FarSquared(x: real, mean: real, sd: real)
    requires sd >= 0.0
    ensures IsOutside(x, mean - 3.0 * sd, mean + 3.0 * sd) ==> Squared(mean)(x) > 9.0 * (sd * sd)
    ensures Squared(mean)(x) >= 0.0
  {
    var d := if x < mean then mean - x else x - mean;
    SquareGrows(d, sd);
    assert (x - mean) * (x - mean) == d * d;
  }

  lemma SquareGrows(d: real, sd: real)
    requires d >= 0.0 && sd >= 0.0
    ensures d * d >= 0.0
    ensures d > 3.0 * sd ==> d * d - 9.0 * (sd * sd) > 0.0
  {
    if d > 3.0 * sd {
      SquareMonotone(3.0 * sd, d);
      TripleSquared(sd);
    }
  }

  lemma SquareMonotone(e: real, d: real)
    requires 0.0 <= e < d
    ensures d * d - e * e > 0.0
  {
    ProductMonotone(e, d, e);
    ProductGrows(e, d, d);
  }

  lemma TripleSquared(x: real)
    ensures (3.0 * x) * (3.0 * x) == 9.0 * (x * x)
  {
  }

  /** The total exceeds the weight of the counted values, if there are any. */
  ghost predicate Outweighs(total: real, w: real, count: int) {
    total - w * count as real >= 0.0 && (count > 0 ==> total - w * count as real > 0.0)
  }

  lemma OutweighsMore(total: real, w: real, count: int, x: real, more: int)
    requires Outweighs(total, w, count) && count >= 0 && 0 <= more <= 1 && x >= 0.0 && (more == 1 ==> x > w)
    ensures Outweighs(x + total, w, more + count)
  {
    OneMore(w, count);
  }

  /** Every outlier adds more than nine variances to the sum of squares. */
  lemma {:induction false} OutliersWeigh(p: seq<real>, mean: real, sd: real)
    requires sd >= 0.0
    ensures BeyondDeviation(p, mean, sd) >= 0
    ensures Outweighs(SumReal(p, Squared(mean)), 9.0 * (sd * sd), BeyondDeviation(p, mean, sd))
  {
    if p != [] {
      OutliersWeigh(p[1..], mean, sd);
      FarSquared(p[0], mean, sd);
      OutweighsMore(SumReal(p[1..], Squared(mean)), 9.0 * (sd * sd), BeyondDeviation(p[1..], mean, sd),
                    Squared(mean)(p[0]), Outside(mean - 3.0 * sd, mean + 3.0 * sd)(p[0]));
    }
  }

  lemma OneMore(w: real, c: int)
    ensures w * (c + 1) as real == w * c as real + w
  {
    assert (c + 1) as real == c as real + 1.0;
  }

  lemma NinthOnly(v: real, c: real, n: real)
    requires v >= 0.0 && v * n - 9.0 * v * c > 0.0
    ensures 9.0 * c < n
  {
    if 9.0 * c >= n {
      ProductMonotone(n, 9.0 * c, v);
    }
  }

  /** Chebyshev: fewer than a ninth of the rounds are outliers, so among nine or fewer there is none. */
  lemma FewOutliers(rounds: seq<Round>, st: BenchmarkStats)
    requires IsStats(rounds, st)
    ensures 9 * st.stdevOutlierRounds < st.rounds
    ensures st.rounds <= 9 ==> st.stdevOutlierRounds == 0
  {
    FewOutside(Map(rounds, PerIteration()), st.mean, st.stdev);
  }

  lemma FewOutside(p: seq<real>, mean: real, sd: real)
    requires IsDeviation(p, mean, sd)
    ensures 9 * BeyondDeviation(p, mean, sd) < |p|
  {
    OutliersWeigh(p, mean, sd);
    var c := BeyondDeviation(p, mean, sd);
    if c > 0 {
      ProductMonotone(0.0, sd, sd);
      NinthOnly(sd * sd, c as real, |p| as real);
    }
  }

  // ---------------------------------------------------------------- outliers beyond the quartiles

  /** Values in the middle part are not counted. */
  lemma {:induction false} CountAtMost(s: seq<real>, low: real, high: real, a: nat, b: nat)
    requires a <= b <= |s| && forall i :: a <= i < b ==> !IsOutside(s[i], low, high)
    ensures Sum(s, Outside(low, high)) <= a + (|s| - b)
  {
    if b == 0 {
      SumBounds(s, Outside(low, high), 0, 1);
    } else {
      var tail, a' := s[1..], if a == 0 then 0 else a - 1;
      forall i | a' <= i < b - 1 ensures !IsOutside(tail[i], low, high) {
        assert tail[i] == s[i + 1];
      }
      CountAtMost(tail, low, high, a', b - 1);
    }
  }

  /** A quarter of the way up, rounded up: the first index at or above the first quartile. */
  function QuarterUp(n: nat): nat {
    (n + 2) / 4
  }

  lemma QuartilesInside(s: seq<real>)
    requires Sorted(s) && s != []
    ensures var a, b := QuarterUp(|s|), |s| - QuarterUp(|s|);
      && 0 <= a < |s| && 0 < b <= |s|
      && ComputeQuantile(s, 0.25) <= s[a] && s[b - 1] <= ComputeQuantile(s, 0.75)
  {
    var n := |s|;
    QuarterPosition(n);
    InterpolateBetween(s, 0.25 * (n - 1) as real);
    InterpolateBetween(s, 0.75 * (n - 1) as real);
    InterpolateAt(s, QuarterUp(n), 0.25 * (n - 1) as real);
  }

  /** The two positions and the integers next to them. */
  lemma QuarterPosition(n: nat)
    requires n > 0
    ensures var p, q := 0.25 * (n - 1) as real, 0.75 * (n - 1) as real;
      && 0.0 <= p <= q <= (n - 1) as real
      && (QuarterUp(n) == p.Floor + 1 || (QuarterUp(n) == p.Floor && p == p.Floor as real))
      && q.Floor == n - QuarterUp(n) - 1
  {
    var m, r := (n - 1) / 4, (n - 1) % 4;
    var p, q := 0.25 * (n - 1) as real, 0.75 * (n - 1) as real;
    assert n - 1 == 4 * m + r;
    assert p == m as real + 0.25 * r as real;
    assert q == (3 * m) as real + 0.75 * r as real;
    assert p.Floor == m;
    assert q.Floor == 3 * m + (if r == 0 then 0 else r - 1);
  }

  lemma InterpolateAt(s: seq<real>, k: nat, pos: real)
    requires Sorted(s) && 0.0 <= pos <= (|s| - 1) as real && k < |s|
    requires k == pos.Floor + 1 || (k == pos.Floor && pos == pos.Floor as real)
    ensures Interpolate(s, pos) <= s[k]
  {
    InterpolateBetween(s, pos);
  }

  lemma QuarterInRange(n: nat)
    requires n > 0
    ensures QuarterUp(n) < n && (n >= 2 ==> 2 * QuarterUp(n) <= n)
  {
  }

  /** At most about half the rounds are outliers beyond the quartiles: no more than a quarter, rounded up, on
      either side. */
  lemma FewBeyondQuartiles(rounds: seq<Round>, st: BenchmarkStats)
    requires IsStats(rounds, st)
    ensures st.iqrOutlierRounds <= 2 * QuarterUp(st.rounds)
  {
    var p := Map(rounds, PerIteration());
    QuartilesOrdered(p, st.min, st.max, st.q1, st.median, st.q3);
    SortSorts(p);
    BeyondQuartilesAgrees(p, Sort(p), st.q1, st.q3);
    FewBeyond(Sort(p), st.q1, st.q3);
  }

  lemma FewBeyond(s: seq<real>, q1: real, q3: real)
    requires Sorted(s) && s != [] && q1 == ComputeQuantile(s, 0.25) && q3 == ComputeQuantile(s, 0.75) && q1 <= q3
    ensures BeyondQuartiles(s, q1, q3) <= 2 * QuarterUp(|s|)
  {
    var a, b := QuarterUp(|s|), |s| - QuarterUp(|s|);
    var low, high := q1 - 1.5 * (q3 - q1), q3 + 1.5 * (q3 - q1);
    QuarterInRange(|s|);
    QuartilesInside(s);
    if a <= b {
      forall i | a <= i < b ensures !IsOutside(s[i], low, high) {
        assert s[a] <= s[i] <= s[b - 1];
      }
      CountAtMost(s, low, high, a, b);
    } else {
      SumBounds(s, Outside(low, high), 0, 1);
    }
  }

  // ---------------------------------------------------------------- the outliers one by one

  predicate ZeroOrOne<T>(s: seq<T>, f: T -> int) {
    forall i :: 0 <= i < |s| ==> f(s[i]) == 0 || f(s[i]) == 1
  }

  function IndicesOfOne<T>(s: seq<T>, f: T -> int): set<int> {
    set i | 0 <= i < |s| && f(s[i]) == 1
  }

  /** A sum of zeros and ones counts the ones. */
  lemma {:induction false} SumCounts<T>(s: seq<T>, f: T -> int)
    requires ZeroOrOne(s, f)
    ensures Sum(s, f) == |IndicesOfOne(s, f)|
  {
    if s != [] {
      var n := |s| - 1;
      var init := s[..n];
      assert s == init + [s[n]];
      SumAppend(init, f, s[n]);
      SumCounts(init, f);
      OneMoreIndex(init, f, s[n]);
    }
  }

  lemma OneMoreIndex<T>(s: seq<T>, f: T -> int, x: T)
    ensures |IndicesOfOne(s + [x], f)| == |IndicesOfOne(s, f)| + if f(x) == 1 then 1 else 0
  {
    var before, l := IndicesOfOne(s, f), s + [x];
    assert forall i :: 0 <= i < |s| ==> l[i] == s[i];
    assert l[|s|] == x && |s| !in before;
    assert IndicesOfOne(l, f) == if f(x) == 1 then before + {|s|} else before;
  }

  function OutsideIndices(p: seq<real>, low: real, high: real): set<int> {
    set i | 0 <= i < |p| && (p[i] < low || p[i] > high)
  }

  lemma OutsideCounted(p: seq<real>, low: real, high: real)
    ensures Sum(p, Outside(low, high)) == |OutsideIndices(p, low, high)|
  {
    SumCounts(p, Outside(low, high));
    assert IndicesOfOne(p, Outside(low, high)) == OutsideIndices(p, low, high);
  }

  /** The rounds whose time per iteration lies below the one limit or above the other. */
  function OutsideRounds(rounds: seq<Round>, low: real, high: real): set<int>
    requires forall i :: 0 <= i < |rounds| ==> rounds[i].iters > 0
  {
    set i | 0 <= i < |rounds| && (var x := rounds[i].timeNs / rounds[i].iters as real; x < low || x > high)
  }

  /** The outliers are the rounds whose time per iteration is more than three deviations away from the mean,
      and those more than one and a half interquartile ranges beyond the quartiles, on either side. */
  lemma OutliersAre(rounds: seq<Round>, st: BenchmarkStats)
    requires IsStats(rounds, st) && forall i :: 0 <= i < |rounds| ==> rounds[i].iters > 0
    ensures st.stdevOutlierRounds == |OutsideRounds(rounds, st.mean - 3.0 * st.stdev, st.mean + 3.0 * st.stdev)|
    ensures st.iqrOutlierRounds ==
      |OutsideRounds(rounds, st.q1 - 1.5 * (st.q3 - st.q1), st.q3 + 1.5 * (st.q3 - st.q1))|
  {
    var p := Map(rounds, PerIteration());
    var low, high := st.mean - 3.0 * st.stdev, st.mean + 3.0 * st.stdev;
    assert BeyondDeviation(p, st.mean, st.stdev) == |OutsideRounds(rounds, low, high)| by {
      OutsideRoundsCounted(rounds, p, low, high);
    }
    var below, above := st.q1 - 1.5 * (st.q3 - st.q1), st.q3 + 1.5 * (st.q3 - st.q1);
    assert BeyondQuartiles(p, st.q1, st.q3) == |OutsideRounds(rounds, below, above)| by {
      OutsideRoundsCounted(rounds, p, below, above);
    }
  }

  lemma OutsideRoundsCounted(rounds: seq<Round>, p: seq<real>, low: real, high: real)
    requires p == Map(rounds, PerIteration()) && forall i :: 0 <= i < |rounds| ==> rounds[i].iters > 0
    ensures Sum(p, Outside(low, high)) == |OutsideRounds(rounds, low, high)|
  {
    OutsideCounted(p, low, high);
    assert OutsideIndices(p, low, high) == OutsideRounds(rounds, low, high);
  }

  /** A single round beyond a limit, above or below, is counted. */
  lemma NoOutlierIsMissed(rounds: seq<Round>, st: BenchmarkStats, i: nat)
    requires IsStats(rounds, st) && i < |rounds| && rounds[i].iters > 0
    ensures var x := rounds[i].timeNs / rounds[i].iters as real;
      && (x > st.mean + 3.0 * st.stdev || x < st.mean - 3.0 * st.stdev ==> st.stdevOutlierRounds > 0)
      && (x > st.q3 + 1.5 * (st.q3 - st.q1) || x < st.q1 - 1.5 * (st.q3 - st.q1) ==> st.iqrOutlierRounds > 0)
  {
    var p := Map(rounds, PerIteration());
    assert p[i] == rounds[i].timeNs / rounds[i].iters as real;
    OneOutside(p, i, st.mean - 3.0 * st.stdev, st.mean + 3.0 * st.stdev);
    OneOutside(p, i, st.q1 - 1.5 * (st.q3 - st.q1), st.q3 + 1.5 * (st.q3 - st.q1));
  }

  lemma OneOutside(p: seq<real>, i: nat, low: real, high: real)
    requires i < |p|
    ensures p[i] < low || p[i] > high ==> Sum(p, Outside(low, high)) > 0
  {
    OutsideCounted(p, low, high);
    if p[i] < low || p[i] > high {
      assert i in OutsideIndices(p, low, high);
    }
  }

  // ---------------------------------------------------------------- two rounds

  /** The statistics of two rounds in closed form. */
  lemma TwoRounds(r: Round, s: Round, a: real, b: real, st: BenchmarkStats)
    requires IsStats([r, s], st) && r.iters > 0 && s.iters > 0
    requires a == r.timeNs / r.iters as real && b == s.timeNs / s.iters as real && a <= b
    ensures st.min == a && st.max == b && st.mean == (a + b) / 2.0 && st.stdev == (b - a) / 2.0
    ensures st.q1 == a + (b - a) / 4.0 && st.median == (a + b) / 2.0 && st.q3 == b - (b - a) / 4.0
    ensures st.stdevOutlierRounds == 0 && st.iqrOutlierRounds == 0
    ensures st.rounds == 2 && st.iterPerRound == (r.iters + s.iters) / 2
    ensures st.totalTime == (r.timeNs + s.timeNs) / 1000000000.0
  {
    var p := Map([r, s], PerIteration());
    assert p == [a, b];
    TwoTimes(a, b, st);
    SumOfPair(r, s, Time(), Iters());
  }

  lemma TwoTimes(a: real, b: real, st: BenchmarkStats)
    requires DescribesTimes([a, b], st) && a <= b
    ensures st.min == a && st.max == b && st.mean == (a + b) / 2.0 && st.stdev == (b - a) / 2.0
    ensures st.q1 == a + (b - a) / 4.0 && st.median == (a + b) / 2.0 && st.q3 == b - (b - a) / 4.0
    ensures st.stdevOutlierRounds == 0 && st.iqrOutlierRounds == 0
  {
    var p := [a, b];
    TwoExtremes(a, b, st.min, st.max);
    TwoMean(a, b, st.mean);
    TwoDeviation(a, b, st.mean, st.stdev);
    TwoQuartiles(a, b, st.q1, st.median, st.q3);
    NoneOutside(p, a - (b - a), b + (b - a), st.mean - 3.0 * st.stdev, st.mean + 3.0 * st.stdev);
    NoneOutside(p, a - (b - a) / 2.0, b + (b - a) / 2.0, st.q1 - 1.5 * (st.q3 - st.q1), st.q3 + 1.5 * (st.q3 - st.q1));
  }

  lemma TwoExtremes(a: real, b: real, min: real, max: real)
    requires a <= b && IsLeast(min, [a, b]) && IsGreatest(max, [a, b])
    ensures min == a && max == b
  {
    assert a in [a, b] && b in [a, b];
  }

  lemma SumRealOfPair<T>(x: T, y: T, f: T -> real)
    ensures SumReal([x, y], f) == f(x) + f(y)
  {
    assert [x, y][1..] == [y];
    assert SumReal([y], f) == f(y);
  }

  lemma SumOfPair(x: Round, y: Round, f: Round -> real, g: Round -> int)
    ensures SumReal([x, y], f) == f(x) + f(y) && Sum([x, y], g) == g(x) + g(y)
  {
    SumRealOfPair(x, y, f);
    assert [x, y][1..] == [y];
    assert Sum([y], g) == g(y);
  }

  lemma TwoMean(a: real, b: real, mean: real)
    requires IsMean([a, b], mean)
    ensures mean == (a + b) / 2.0
  {
    SumRealOfPair(a, b, Itself());
  }

  lemma TwoDeviation(a: real, b: real, mean: real, sd: real)
    requires a <= b && mean == (a + b) / 2.0 && IsDeviation([a, b], mean, sd)
    ensures sd == (b - a) / 2.0
  {
    SumRealOfPair(a, b, Squared(mean));
    var d := (b - a) / 2.0;
    assert (a - mean) * (a - mean) == d * d;
    assert (b - mean) * (b - mean) == d * d;
    RootUnique(sd, d);
  }

  lemma TwoQuartiles(a: real, b: real, q1: real, median: real, q3: real)
    requires a <= b && AreQuartiles([a, b], q1, median, q3)
    ensures q1 == a + (b - a) / 4.0 && median == (a + b) / 2.0 && q3 == b - (b - a) / 4.0
  {
    var p := [a, b];
    SortSorts(p);
    SortedIsUnique(Sort(p), p);
    QuantileOfTwo(p, 0.25);
    QuantileOfTwo(p, 0.5);
    QuantileOfTwo(p, 0.75);
  }

  lemma QuantileOfTwo(s: seq<real>, d: real)
    requires |s| == 2 && 0.0 <= d < 1.0
    ensures ComputeQuantile(s, d) == s[0] + d * (s[1] - s[0])
  {
    PositionInRange(d, 2);
    assert d * (|s| - 1) as real == d && d.Floor == 0;
  }

  lemma NoneOutside(p: seq<real>, lo: real, hi: real, low: real, high: real)
    requires low <= lo && hi <= high && forall i :: 0 <= i < |p| ==> lo <= p[i] <= hi
    ensures Sum(p, Outside(low, high)) == 0
  {
    OutsideCounted(p, low, high);
    assert OutsideIndices(p, low, high) == {};
  }

  // ---------------------------------------------------------------- the order of the rounds

  lemma MapWithout<T, U>(t: seq<T>, i: nat, f: T -> U)
    requires i < |t|
    ensures multiset(Map(t, f)) == multiset(Map(t[..i] + t[i + 1..], f)) + multiset{f(t[i])}
  {
    var a, b := Map(t[..i], f), Map(t[i + 1..], f);
    assert Map(t, f) == a + [f(t[i])] + b;
    assert Map(t[..i] + t[i + 1..], f) == a + b;
  }

  lemma {:induction false} MapOfSame<T, U>(s: seq<T>, t: seq<T>, f: T -> U)
    requires multiset(s) == multiset(t)
    ensures multiset(Map(s, f)) == multiset(Map(t, f))
  {
    assert |multiset(s)| == |s| && |multiset(t)| == |t|;
    if s == [] {
      assert Map(s, f) == Map(t, f);
    } else {
      assert s[0] in multiset(t);
      var i :| 0 <= i < |t| && t[i] == s[0];
      var rest := t[..i] + t[i + 1..];
      SameWithout(s, t, i);
      MapOfSame(s[1..], rest, f);
      MapFirst(s, f);
      MapWithout(t, i, f);
    }
  }

  lemma MapFirst<T, U>(s: seq<T>, f: T -> U)
    requires s != []
    ensures multiset(Map(s, f)) == multiset(Map(s[1..], f)) + multiset{f(s[0])}
  {
    MapWithout(s, 0, f);
    assert s[..0] + s[1..] == s[1..];
  }

  lemma QuotientUnique(x: real, y: real, n: real)
    requires n > 0.0 && x * n == y * n
    ensures x == y
  {
    if x < y {
      ProductGrows(x, y, n);
      assert false;
    } else if y < x {
      ProductGrows(y, x, n);
      assert false;
    }
  }

  lemma RootUnique(x: real, y: real)
    requires x >= 0.0 && y >= 0.0 && x * x == y * y
    ensures x == y
  {
    if x < y {
      SquareMonotone(x, y);
      assert false;
    } else if y < x {
      SquareMonotone(y, x);
      assert false;
    }
  }

  lemma DescriptionsAgree(p: seq<real>, q: seq<real>, s: BenchmarkStats, t: BenchmarkStats)
    requires multiset(p) == multiset(q) && DescribesTimes(p, s) && DescribesTimes(q, t)
    ensures s.min == t.min && s.max == t.max && s.mean == t.mean && s.stdev == t.stdev
    ensures s.q1 == t.q1 && s.median == t.median && s.q3 == t.q3
    ensures s.iqrOutlierRounds == t.iqrOutlierRounds && s.stdevOutlierRounds == t.stdevOutlierRounds
  {
    assert |multiset(p)| == |p| && |multiset(q)| == |q|;
    ExtremesAgree(p, q, s.min, s.max, t.min, t.max);
    MeansAgree(p, q, s.mean, t.mean);
    DeviationsAgree(p, q, s.mean, s.stdev, t.stdev);
    QuartilesAgree(p, q, s.q1, s.median, s.q3, t.q1, t.median, t.q3);
    BeyondDeviationAgrees(p, q, s.mean, s.stdev);
    BeyondQuartilesAgrees(p, q, s.q1, s.q3);
  }

  lemma QuartilesAgree(p: seq<real>, q: seq<real>, a: real, b: real, c: real, d: real, e: real, f: real)
    requires multiset(p) == multiset(q) && AreQuartiles(p, a, b, c) && AreQuartiles(q, d, e, f)
    ensures a == d && b == e && c == f
  {
    SortSorts(p);
    SortSorts(q);
    SortedIsUnique(Sort(p), Sort(q));
  }

  lemma BeyondDeviationAgrees(p: seq<real>, q: seq<real>, mean: real, sd: real)
    requires multiset(p) == multiset(q)
    ensures BeyondDeviation(p, mean, sd) == BeyondDeviation(q, mean, sd)
  {
    SumOfSame(p, q, Outside(mean - 3.0 * sd, mean + 3.0 * sd));
  }

  lemma BeyondQuartilesAgrees(p: seq<real>, q: seq<real>, q1: real, q3: real)
    requires multiset(p) == multiset(q)
    ensures BeyondQuartiles(p, q1, q3) == BeyondQuartiles(q, q1, q3)
  {
    SumOfSame(p, q, Outside(q1 - 1.5 * (q3 - q1), q3 + 1.5 * (q3 - q1)));
  }

  lemma ExtremesAgree(p: seq<real>, q: seq<real>, a: real, b: real, c: real, d: real)
    requires multiset(p) == multiset(q)
    requires IsLeast(a, p) && IsGreatest(b, p) && IsLeast(c, q) && IsGreatest(d, q)
    ensures a == c && b == d
  {
    assert forall x :: x in p <==> x in multiset(p);
    assert forall x :: x in q <==> x in multiset(q);
  }

  lemma MeansAgree(p: seq<real>, q: seq<real>, x: real, y: real)
    requires multiset(p) == multiset(q) && |p| == |q| && IsMean(p, x) && IsMean(q, y)
    ensures x == y
  {
    SumRealOfSame(p, q, Itself());
    QuotientUnique(x, y, |p| as real);
  }

  lemma DeviationsAgree(p: seq<real>, q: seq<real>, mean: real, x: real, y: real)
    requires multiset(p) == multiset(q) && |p| == |q| && IsDeviation(p, mean, x) && IsDeviation(q, mean, y)
    ensures x == y
  {
    SumRealOfSame(p, q, Squared(mean));
    QuotientUnique(x * x, y * y, |p| as real);
    RootUnique(x, y);
  }

  /** The statistics are determined by the rounds, and the same for every order of them. */
  lemma StatsIgnoreOrder(a: seq<Round>, b: seq<Round>, s: BenchmarkStats, t: BenchmarkStats)
    requires multiset(a) == multiset(b) && IsStats(a, s) && IsStats(b, t)
    ensures s == t
  {
    assert |multiset(a)| == |a| && |multiset(b)| == |b|;
    MapOfSame(a, b, PerIteration());
    DescriptionsAgree(Map(a, PerIteration()), Map(b, PerIteration()), s, t);
    SumRealOfSame(a, b, Time());
    SumOfSame(a, b, Iters());
  }

  // ---------------------------------------------------------------- the computation

  /** std::sqrt on what is not negative. */
  ghost predicate IsSqrt(sqrt: real -> real) {
    forall x :: x >= 0.0 ==> sqrt(x) >= 0.0 && sqrt(x) * sqrt(x) == x
  }

  /** std::accumulate of the terms, and std::count_if when the terms are zero or one. */
  method Accumulate(s: seq<real>, f: real -> real) returns (sum: real)
    ensures sum == SumReal(s, f)
  {
    sum := 0.0;
    var i := 0;
    while i < |s|
      invariant 0 <= i <= |s| && sum == SumReal(s[..i], f)
    {
      assert s[..i + 1] == s[..i] + [s[i]];
      SumRealAppend(s[..i], f, s[i]);
      sum := sum + f(s[i]);
      i := i + 1;
    }
    assert s[..i] == s;
  }

  method CountOutside(s: seq<real>, low: real, high: real) returns (count: nat)
    ensures count == Sum(s, Outside(low, high))
  {
    count := 0;
    var i := 0;
    while i < |s|
      invariant 0 <= i <= |s| && count == Sum(s[..i], Outside(low, high))
    {
      assert s[..i + 1] == s[..i] + [s[i]];
      SumAppend(s[..i], Outside(low, high), s[i]);
      if IsOutside(s[i], low, high) {
        count := count + 1;
      }
      i := i + 1;
    }
    assert s[..i] == s;
  }

  method Extremes(s: seq<real>) returns (min: real, max: real)
    requires s != []
    ensures IsLeast(min, s) && IsGreatest(max, s)
  {
    min, max := s[0], s[0];
    var i := 1;
    while i < |s|
      invariant 1 <= i <= |s| && IsLeast(min, s[..i]) && IsGreatest(max, s[..i])
    {
      assert s[..i + 1] == s[..i] + [s[i]];
      if s[i] < min {
        min := s[i];
      }
      if max < s[i] {
        max := s[i];
      }
      i := i + 1;
    }
    assert s[..i] == s;
  }

  method TotalIters(iters: seq<nat>, ghost times: seq<real>) returns (sum: nat)
    requires |iters| == |times|
    ensures sum == Sum(Rounds(iters, times), Iters())
  {
    ghost var rounds := Rounds(iters, times);
    sum := 0;
    var i := 0;
    while i < |iters|
      invariant 0 <= i <= |iters| && sum == Sum(rounds[..i], Iters())
    {
      assert rounds[..i + 1] == rounds[..i] + [rounds[i]];
      SumAppend(rounds[..i], Iters(), rounds[i]);
      sum := sum + iters[i];
      i := i + 1;
    }
    assert rounds[..i] == rounds;
  }

  method TimesPerIteration(iters: seq<nat>, times: seq<real>) returns (p: seq<real>)
    requires |iters| == |times| && forall i :: 0 <= i < |iters| ==> iters[i] != 0
    ensures p == Map(Rounds(iters, times), PerIteration())
  {
    p := [];
    var i := 0;
    while i < |iters|
      invariant 0 <= i <= |iters| == |times| && |p| == i
      invariant forall j :: 0 <= j < i ==> p[j] == PerIteration()(Round(iters[j], times[j]))
    {
      p := p + [times[i] / iters[i] as real];
      i := i + 1;
    }
  }

  lemma DeviationFromRoot(p: seq<real>, mean: real, n: real, root: real)
    requires p != [] && n == |p| as real && root >= 0.0 && root * root == SumReal(p, Squared(mean)) / n
    ensures IsDeviation(p, mean, root)
  {
    var total := SumReal(p, Squared(mean));
    assert total / n * n == total;
  }

  lemma {:induction false} SquaresNotNegative(p: seq<real>, mean: real)
    ensures SumReal(p, Squared(mean)) >= 0.0
  {
    if p != [] {
      FarSquared(p[0], mean, 0.0);
      SquaresNotNegative(p[1..], mean);
    }
  }

  lemma QuotientNotNegative(x: real, n: real)
    requires x >= 0.0 && n > 0.0
    ensures x / n >= 0.0
  {
  }

  method Spread(p: seq<real>, sqrt: real -> real) returns (mean: real, stdev: real)
    requires p != [] && IsSqrt(sqrt)
    ensures IsMean(p, mean) && IsDeviation(p, mean, stdev)
  {
    var n := |p| as real;
    var sum := Accumulate(p, Itself());
    mean := sum / n;
    var variance := Accumulate(p, Squared(mean));
    SquaresNotNegative(p, mean);
    QuotientNotNegative(variance, n);
    stdev := sqrt(variance / n);
    DeviationFromRoot(p, mean, n, stdev);
  }

  method Quartiles(p: seq<real>, sorted: seq<real>) returns (q1: real, median: real, q3: real, outliers: nat)
    requires sorted == Sort(p)
    ensures AreQuartiles(p, q1, median, q3) && outliers == BeyondQuartiles(p, q1, q3)
  {
    q1 := ComputeQuantile(sorted, 0.25);
    median := ComputeQuantile(sorted, 0.5);
    q3 := ComputeQuantile(sorted, 0.75);
    SortSorts(p);
    outliers := CountBeyondQuartiles(p, sorted, q1, q3);
  }

  method CountBeyondQuartiles(p: seq<real>, sorted: seq<real>, q1: real, q3: real) returns (outliers: nat)
    requires multiset(p) == multiset(sorted)
    ensures outliers == BeyondQuartiles(p, q1, q3)
  {
    var iqr := q3 - q1;
    outliers := CountOutside(sorted, q1 - 1.5 * iqr, q3 + 1.5 * iqr);
    BeyondQuartilesAgrees(sorted, p, q1, q3);
  }

  lemma SameExtremes(p: seq<real>, q: seq<real>, min: real, max: real)
    requires multiset(p) == multiset(q) && IsLeast(min, q) && IsGreatest(max, q)
    ensures IsLeast(min, p) && IsGreatest(max, p)
  {
    assert forall x :: x in p <==> x in multiset(p);
    assert forall x :: x in q <==> x in multiset(q);
  }

  method Describe(p: seq<real>, sqrt: real -> real, rounds: nat, totalTime: real, iterPerRound: int)
    returns (st: BenchmarkStats)
    requires p != [] && IsSqrt(sqrt)
    ensures DescribesTimes(p, st)
    ensures st.rounds == rounds && st.totalTime == totalTime && st.iterPerRound == iterPerRound
  {
    var sorted := Sort(p);
    SortSorts(p);
    var mean, stdev := Spread(p, sqrt);
    var stdevOutliers := CountOutside(sorted, mean - 3.0 * stdev, mean + 3.0 * stdev);
    BeyondDeviationAgrees(sorted, p, mean, stdev);
    var q1, median, q3, iqrOutliers := Quartiles(p, sorted);
    var min, max := Extremes(sorted);
    SameExtremes(p, sorted, min, max);
    st := BenchmarkStats(min, max, mean, stdev, q1, median, q3, rounds, totalTime,
                         iqrOutliers, stdevOutliers, iterPerRound);
  }

  lemma OutsideTimes(iters: seq<nat>, times: seq<real>, p: seq<real>, low: real, high: real)
    requires |iters| == |times| && forall i :: 0 <= i < |iters| ==> iters[i] != 0
    requires p == Map(Rounds(iters, times), PerIteration())
    ensures Sum(p, Outside(low, high)) == |set i | 0 <= i < |iters| &&
      var x := times[i] / iters[i] as real; x < low || x > high|
  {
    OutsideCounted(p, low, high);
    assert OutsideIndices(p, low, high) == set i | 0 <= i < |iters| &&
      var x := times[i] / iters[i] as real; x < low || x > high;
  }

  method ComputeBenchmarkStats(iters: seq<nat>, times: seq<real>, sqrt: real -> real) returns (st: BenchmarkStats)
    requires |iters| == |times| && |iters| != 0 && forall i :: 0 <= i < |iters| ==> iters[i] != 0
    requires IsSqrt(sqrt)
    ensures IsStats(Rounds(iters, times), st)
    ensures st.stdevOutlierRounds == |set i | 0 <= i < |iters| &&
      var x := times[i] / iters[i] as real; x < st.mean - 3.0 * st.stdev || x > st.mean + 3.0 * st.stdev|
    ensures st.iqrOutlierRounds == |set i | 0 <= i < |iters| &&
      var x := times[i] / iters[i] as real;
      x < st.q1 - 1.5 * (st.q3 - st.q1) || x > st.q3 + 1.5 * (st.q3 - st.q1)|
  {
    var p := TimesPerIteration(iters, times);
    var totalTime := Accumulate(times, Itself());
    SumRealSame(times, Itself(), Rounds(iters, times), Time());
    var totalIters := TotalIters(iters, times);
    st := Describe(p, sqrt, |times|, totalTime / 1000000000.0, totalIters / |iters|);
    OutsideTimes(iters, times, p, st.mean - 3.0 * st.stdev, st.mean + 3.0 * st.stdev);
    OutsideTimes(iters, times, p, st.q1 - 1.5 * (st.q3 - st.q1), st.q3 + 1.5 * (st.q3 - st.q1));
  }
}
