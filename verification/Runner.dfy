/** The adaptive search for an iteration count and the repetitions of one benchmark
    (google_benchmark/src/benchmark_runner.cc). */
module Runner {
  import opened Sums
  import opened UserCounters

  const K_MAX_ITERATIONS := 1_000_000_000_000
  const ONE_NANOSECOND := 0.000000001

  /** Settings of a runner that never change. */
  datatype Setting = Setting(minTime: real, minWarmupTime: real, dryRun: bool, explicitIters: bool,
                             useManualTime: bool, useRealTime: bool, threads: int, repeats: nat)

  datatype IterationResults = IterationResults(results: Totals, iters: int, seconds: real)

  function MinInt(a: int, b: int): int {
    if b < a then b else a
  }

  function MaxInt(a: int, b: int): int {
    if a < b then b else a
  }

  /** std::llround: to the nearest integer, halves away from zero. */
  function LlRound(x: real): int {
    if x >= 0.0 then (x + 0.5).Floor else -((-x + 0.5).Floor)
  }

  /** `seconds / minTime > 0.1` on doubles: dividing by zero gives an infinity of the sign of `seconds`. */
  predicate IsSignificant(seconds: real, minTime: real) {
    if minTime == 0.0 then seconds > 0.0 else seconds / minTime > 0.1
  }

  function Multiplier(minTime: real, seconds: real): real {
    if IsSignificant(seconds, minTime) then minTime * 1.4 / MaxReal(seconds, ONE_NANOSECOND) else 10.0
  }

  /** The rounded count before the cap. */
  function Uncapped(minTime: real, i: IterationResults): int {
    LlRound(MaxReal(Multiplier(minTime, i.seconds) * i.iters as real, i.iters as real + 1.0))
  }

  function PredictNumItersNeeded(minTime: real, i: IterationResults): int {
    MinInt(Uncapped(minTime, i), K_MAX_ITERATIONS)
  }

  predicate ShouldReport(c: Setting, minTime: real, i: IterationResults) {
    || i.results.skip != NotSkipped
    || c.dryRun
    || i.iters >= K_MAX_ITERATIONS
    || i.seconds >= minTime
    || (i.results.sum.realTime >= 5.0 * minTime && !c.useManualTime)
  }

  /** What DoNIterations makes of the merged results. */
  function FromTotals(c: Setting, t: Totals): IterationResults
    requires c.threads > 0
  {
    var seconds := if c.useManualTime then t.sum.manualTime
                   else if c.useRealTime then t.sum.realTime else t.sum.cpuTime;
    IterationResults(t, t.sum.iterations / c.threads, seconds)
  }

  /** The outcome of a run, for a warm-up or not, the k-th run of its search, with n iterations. */
  type World = (bool, nat, int) -> Totals

  /** Every thread runs at least the iterations it is asked for unless the benchmark is skipped. */
  ghost predicate RunsAsAsked(c: Setting, w: World) {
    forall warm, k, n :: n >= 1 && w(warm, k, n).skip == NotSkipped ==>
      w(warm, k, n).sum.iterations >= c.threads * n
  }

  ghost predicate Proper(c: Setting, w: World) {
    c.threads > 0 && RunsAsAsked(c, w)
  }

  function RunOnce(c: Setting, w: World, warm: bool, k: nat, n: int): IterationResults
    requires c.threads > 0
  {
    FromTotals(c, w(warm, k, n))
  }

  /** On the merged totals of a run: the search may stop with it. */
  predicate Suffices(c: Setting, minTime: real, t: Totals)
    requires c.threads > 0
  {
    || t.skip != NotSkipped
    || c.dryRun
    || t.sum.iterations >= 1_000_000_000_000 * c.threads
    || (if c.useManualTime then t.sum.manualTime else if c.useRealTime then t.sum.realTime else t.sum.cpuTime) >= minTime
    || (!c.useManualTime && t.sum.realTime >= 5.0 * minTime)
  }

  lemma SufficesIsReported(c: Setting, minTime: real, t: Totals)
    requires c.threads > 0
    ensures Suffices(c, minTime, t) <==> ShouldReport(c, minTime, FromTotals(c, t))
  {
    DivReaches(t.sum.iterations, c.threads, K_MAX_ITERATIONS);
  }

  lemma DivReaches(a: int, b: int, q: int)
    requires b > 0
    ensures a / b >= q <==> a >= q * b
  {
    DivBounds(a, b);
    if a / b >= q {
      MulMonoInt(q, a / b, b);
    } else {
      MulMonoInt(a / b + 1, q, b);
    }
  }

  lemma MulMonoInt(a: int, b: int, n: int)
    requires a <= b && n >= 0
    ensures a * n <= b * n
  {
    assert (b - a) * n == b * n - a * n;
  }

  /** The quotient is the largest number of full shares. */
  lemma DivBounds(a: int, b: int)
    requires b > 0
    ensures a / b * b <= a < (a / b + 1) * b
  {
    assert a == a / b * b + a % b;
  }

  lemma AsManyAsAsked(c: Setting, w: World, warm: bool, k: nat, n: int)
    requires Proper(c, w) && n >= 1
    ensures var i := RunOnce(c, w, warm, k, n); i.results.skip != NotSkipped || i.iters >= n
  {
    if w(warm, k, n).skip == NotSkipped {
      DivAtLeast(w(warm, k, n).sum.iterations, c.threads, n);
    }
  }

  // ---------------------------------------------------------------- one prediction

  lemma RoundBounds(x: real, lo: int, hi: int)
    requires lo as real <= x <= hi as real
    ensures lo <= LlRound(x) <= hi
  {
    if x >= 0.0 {
      assert (x + 0.5).Floor as real <= x + 0.5 < (x + 0.5).Floor as real + 1.0;
    } else {
      assert (-x + 0.5).Floor as real <= -x + 0.5 < (-x + 0.5).Floor as real + 1.0;
    }
  }

  lemma MulMono(a: real, b: real, n: real)
    requires a <= b && n >= 0.0
    ensures a * n <= b * n
  {
    assert (b - a) * n == b * n - a * n;
  }

  lemma BetweenBounds(m: real, n: real)
    requires m <= 14.0 && n >= 1.0
    ensures n + 1.0 <= MaxReal(m * n, n + 1.0) <= 14.0 * n
  {
    MulMono(m, 14.0, n);
  }

  /** Comparing a quotient is comparing with a product. */
  lemma QuotientCompare(a: real, b: real, q: real)
    requires b > 0.0
    ensures a / b > q <==> a > q * b
    ensures a / b < q <==> a < q * b
  {
    var x := a / b;
    assert x * b == a;
    assert (x - q) * b == a - q * b;
  }

  lemma MultiplierBounds(minTime: real, seconds: real)
    ensures Multiplier(minTime, seconds) <= 14.0
    ensures minTime >= ONE_NANOSECOND && seconds < minTime ==> Multiplier(minTime, seconds) >= 1.4
  {
    var s := MaxReal(seconds, ONE_NANOSECOND);
    QuotientCompare(minTime * 1.4, s, 14.0);
    QuotientCompare(minTime * 1.4, s, 1.4);
    if minTime > 0.0 {
      QuotientCompare(seconds, minTime, 0.1);
    }
  }

  /** The next count is strictly larger than the last one whenever the run was not reported. */
  lemma PredictIsLarger(minTime: real, i: IterationResults)
    requires i.iters < K_MAX_ITERATIONS
    ensures PredictNumItersNeeded(minTime, i) > i.iters
  {
    AtLeastNextInteger(MaxReal(Multiplier(minTime, i.seconds) * i.iters as real, i.iters as real + 1.0), i.iters + 1);
  }

  lemma AtLeastNextInteger(x: real, lo: int)
    requires x >= lo as real
    ensures LlRound(x) >= lo
  {
    if x >= 0.0 {
      assert x + 0.5 < (x + 0.5).Floor as real + 1.0;
    } else {
      assert (-x + 0.5).Floor as real <= -x + 0.5;
    }
  }

  /** It is at most 14 times the last count, and the rounded value fits a 64-bit integer. */
  lemma PredictIsBounded(minTime: real, i: IterationResults)
    requires 1 <= i.iters < K_MAX_ITERATIONS
    ensures PredictNumItersNeeded(minTime, i) <= Uncapped(minTime, i) <= 14 * i.iters
    ensures -0x8000_0000_0000_0000 <= Uncapped(minTime, i) < 0x8000_0000_0000_0000
  {
    var m, n := Multiplier(minTime, i.seconds), i.iters as real;
    MultiplierBounds(minTime, i.seconds);
    BetweenBounds(m, n);
    assert n >= 1.0 && (i.iters + 1) as real == n + 1.0 && (14 * i.iters) as real == 14.0 * n;
    RoundBounds(MaxReal(m * n, n + 1.0), i.iters + 1, 14 * i.iters);
  }

  /** A run of at most a tenth of the minimum time is followed by ten times as many iterations, any other by
      the integer next to 1.4 * minTime * iters / seconds, halves rounded up, but by one more at least. */
  lemma PredictExactly(minTime: real, i: IterationResults) returns (q: int)
    requires minTime >= 0.0 && 1 <= i.iters < K_MAX_ITERATIONS
    ensures 10.0 * i.seconds <= minTime ==> q == 10 * i.iters
    ensures 10.0 * i.seconds > minTime ==>
      var s := if i.seconds > 0.000000001 then i.seconds else 0.000000001;
      (q as real - 0.5) * s <= minTime * 1.4 * i.iters as real < (q as real + 0.5) * s
    ensures PredictNumItersNeeded(minTime, i) == MinInt(MaxInt(q, i.iters + 1), 1_000_000_000_000)
  {
    if minTime > 0.0 {
      QuotientCompare(i.seconds, minTime, 0.1);
    }
    if 10.0 * i.seconds <= minTime {
      q := 10 * i.iters;
      RoundsTo(10.0 * i.iters as real, q);
      RoundsToLarger(10.0 * i.iters as real, q, i.iters);
    } else {
      q := NearestPrediction(minTime, i);
    }
  }

  lemma NearestPrediction(minTime: real, i: IterationResults) returns (q: int)
    requires minTime >= 0.0 && 1 <= i.iters && IsSignificant(i.seconds, minTime)
    ensures var s := MaxReal(i.seconds, ONE_NANOSECOND);
      (q as real - 0.5) * s <= minTime * 1.4 * i.iters as real < (q as real + 0.5) * s
    ensures Uncapped(minTime, i) == MaxInt(q, i.iters + 1)
  {
    var s := MaxReal(i.seconds, ONE_NANOSECOND);
    q := NearestQuotient(minTime * 1.4, s, i.iters as real);
    RoundsToLarger(Multiplier(minTime, i.seconds) * i.iters as real, q, i.iters);
  }

  lemma RoundsToLarger(x: real, q: int, n: int)
    requires n >= 0 && x >= 0.0 && q as real - 0.5 <= x < q as real + 0.5
    ensures LlRound(MaxReal(x, n as real + 1.0)) == MaxInt(q, n + 1)
  {
    RoundsTo(x, q);
    RoundsTo(n as real + 1.0, n + 1);
  }

  lemma NearestQuotient(a: real, s: real, n: real) returns (q: int)
    requires a >= 0.0 && s > 0.0 && n >= 0.0
    ensures q >= 0 && a / s * n >= 0.0 && q as real - 0.5 <= a / s * n < q as real + 0.5
    ensures (q as real - 0.5) * s <= a * n < (q as real + 0.5) * s
  {
    QuotientNotNegative(a, s, n);
    var y := a / s * n;
    q := (y + 0.5).Floor;
    ScaleBack(a, s, n);
    NearestScaled(q as real, y, s, a * n);
  }

  lemma QuotientNotNegative(a: real, s: real, n: real)
    requires a >= 0.0 && s > 0.0 && n >= 0.0
    ensures a / s * n >= 0.0
  {
    var m := a / s;
    assert m >= 0.0;
    assert m * n >= 0.0;
  }

  lemma ScaleBack(a: real, s: real, n: real)
    requires s > 0.0
    ensures a / s * n * s == a * n
  {
    var m := a / s;
    assert m * s == a;
    assert m * n * s == m * s * n;
  }

  lemma NearestScaled(q: real, y: real, s: real, ys: real)
    requires q - 0.5 <= y < q + 0.5 && s > 0.0 && ys == y * s
    ensures (q - 0.5) * s <= ys < (q + 0.5) * s
  {
    var below, above := y - (q - 0.5), q + 0.5 - y;
    assert below * s >= 0.0 && above * s > 0.0;
    assert below * s == y * s - (q - 0.5) * s && above * s == (q + 0.5) * s - y * s;
  }

  /** The least count that can follow i iterations before the cap: 1.4 times as many, rounded. */
  function Slowest(i: int): int {
    MinInt(MaxInt(i + 1, (14 * i + 5) / 10), K_MAX_ITERATIONS)
  }

  /** When the minimum time is at least a nanosecond and was not reached, the next count is at
      least the slowest one. */
  lemma PredictGrows(minTime: real, i: IterationResults)
    requires 1 <= i.iters && ONE_NANOSECOND <= minTime && i.seconds < minTime
    ensures PredictNumItersNeeded(minTime, i) >= Slowest(i.iters)
  {
    UncappedGrows(minTime, i);
  }

  lemma UncappedGrows(minTime: real, i: IterationResults)
    requires 1 <= i.iters && ONE_NANOSECOND <= minTime && i.seconds < minTime
    ensures Uncapped(minTime, i) >= i.iters + 1 && Uncapped(minTime, i) >= (14 * i.iters + 5) / 10
  {
    var m, n := Multiplier(minTime, i.seconds), i.iters as real;
    MultiplierBounds(minTime, i.seconds);
    AtLeastBounds(m, n);
    AtLeastNextInteger(MaxReal(m * n, n + 1.0), i.iters + 1);
    RoundsUpTo(MaxReal(m * n, n + 1.0), i.iters);
  }

  /** A third more, at least. */
  lemma SlowestGrowsByAThird(i: int)
    requires i >= 1
    ensures 3 * Slowest(i) >= 4 * i || Slowest(i) == K_MAX_ITERATIONS
  {
  }

  lemma AtLeastBounds(m: real, n: real)
    requires m >= 1.4 && n >= 1.0
    ensures MaxReal(m * n, n + 1.0) >= 1.4 * n && MaxReal(m * n, n + 1.0) >= n + 1.0
  {
    MulMono(1.4, m, n);
  }

  lemma RoundsUpTo(x: real, i: int)
    requires i >= 1 && x >= 1.4 * i as real
    ensures LlRound(x) >= (14 * i + 5) / 10
  {
    var f := (x + 0.5).Floor;
    assert x + 0.5 < f as real + 1.0;
    assert (10 * f + 10) as real > (14 * i + 5) as real;
    assert 10 * f + 10 > 14 * i + 5;
  }

  lemma SlowestMonotone(i: int, j: int)
    requires i <= j
    ensures Slowest(i) <= Slowest(j)
  {
  }

  /** k slowest steps from a single iteration. */
  function SlowestAfter(k: nat): int {
    if k == 0 then 1 else Slowest(SlowestAfter(k - 1))
  }

  lemma FirstSlowestSteps()
    ensures SlowestAfter(9) == 29
  {
    assert SlowestAfter(3) == 4;
    assert SlowestAfter(5) == 8;
    assert SlowestAfter(7) == 15;
  }

  lemma SlowestGrowth(i: int)
    requires 4 <= i
    ensures Slowest(i) == K_MAX_ITERATIONS || 10 * (Slowest(i) - 1) >= 14 * (i - 1)
    ensures 10 * (Slowest(i) + 1) <= 14 * (i + 1)
  {
  }

  lemma OneSlowStep(k: nat)
    requires SlowestAfter(k) >= 4
    ensures 4 <= SlowestAfter(k + 1) <= K_MAX_ITERATIONS
    ensures SlowestAfter(k + 1) == K_MAX_ITERATIONS || 10 * (SlowestAfter(k + 1) - 1) >= 14 * (SlowestAfter(k) - 1)
    ensures 10 * (SlowestAfter(k + 1) + 1) <= 14 * (SlowestAfter(k) + 1)
  {
    SlowestGrowth(SlowestAfter(k));
  }

  /** `hi` follows `lo` at a factor between p/q and, off by one at most, below the cap. */
  predicate Grown(lo: int, hi: int, p: int, q: int) {
    && 4 <= hi <= K_MAX_ITERATIONS
    && (hi == K_MAX_ITERATIONS || q * (hi - 1) >= p * (lo - 1))
    && q * (hi + 1) <= p * (lo + 1)
  }

  lemma ThreeSlowSteps(k: nat)
    requires 4 <= SlowestAfter(k) <= K_MAX_ITERATIONS
    ensures Grown(SlowestAfter(k), SlowestAfter(k + 3), 2744, 1000)
  {
    OneSlowStep(k);
    OneSlowStep(k + 1);
    OneSlowStep(k + 2);
  }

  lemma NineSlowSteps(k: nat)
    requires 4 <= SlowestAfter(k) <= K_MAX_ITERATIONS
    ensures Grown(SlowestAfter(k), SlowestAfter(k + 9), 20_661_046_784, 1_000_000_000)
  {
    ThreeSlowSteps(k);
    ThreeSlowSteps(k + 3);
    ThreeSlowSteps(k + 6);
  }

  /** 82 slowest steps, and no fewer, reach the cap. */
  lemma SlowestReachesTheCap(j: nat)
    ensures j == 82 ==> SlowestAfter(j) == K_MAX_ITERATIONS
    ensures j == 81 ==> SlowestAfter(j) < K_MAX_ITERATIONS
  {
    FirstSlowestSteps();
    SlowestMiddle(9);
    SlowestLast(45);
  }

  lemma SlowestMiddle(k: nat)
    requires SlowestAfter(k) == 29
    ensures 5_102_000 <= SlowestAfter(k + 36) <= 5_467_000
  {
    NineSlowSteps(k);
    NineSlowSteps(k + 9);
    NineSlowSteps(k + 18);
    NineSlowSteps(k + 27);
    GrownTwice(SlowestAfter(k), SlowestAfter(k + 9), SlowestAfter(k + 18));
    GrownTwice(SlowestAfter(k + 18), SlowestAfter(k + 27), SlowestAfter(k + 36));
  }

  lemma SlowestLast(k: nat)
    requires 5_102_000 <= SlowestAfter(k) <= 5_467_000
    ensures SlowestAfter(k + 36) < K_MAX_ITERATIONS == SlowestAfter(k + 37)
  {
    NineSlowSteps(k);
    NineSlowSteps(k + 9);
    NineSlowSteps(k + 18);
    NineSlowSteps(k + 27);
    GrownTwice(SlowestAfter(k), SlowestAfter(k + 9), SlowestAfter(k + 18));
    GrownTwice(SlowestAfter(k + 18), SlowestAfter(k + 27), SlowestAfter(k + 36));
    OneSlowStep(k + 36);
    assert 929_000_000_000 <= SlowestAfter(k + 36) < K_MAX_ITERATIONS;
  }

  /** Eighteen steps: a factor of 1.4^18 = 426.878.... */
  lemma GrownTwice(a: int, b: int, c: int)
    requires 4 <= a <= K_MAX_ITERATIONS && Grown(a, b, 20_661_046_784, 1_000_000_000)
    requires Grown(b, c, 20_661_046_784, 1_000_000_000)
    ensures c == K_MAX_ITERATIONS || 10_000 * (c - 1) >= 4_268_788 * (a - 1)
    ensures 10_000 * (c + 1) <= 4_268_789 * (a + 1)
  {
  }

  // ---------------------------------------------------------------- the whole search

  /** The count that was accepted, the results of that run, and how many runs it took. */
  datatype SearchResult = SearchResult(iters: int, last: IterationResults, runs: nat)

  /** Runs with growing counts, from the k-th run with n iterations, until one is reported. */
  ghost function Search(c: Setting, minTime: real, w: World, warm: bool, k: nat, n: int): SearchResult
    requires Proper(c, w) && n >= 1
    decreases if n < K_MAX_ITERATIONS then K_MAX_ITERATIONS - n else 0
  {
    var i := RunOnce(c, w, warm, k, n);
    if ShouldReport(c, minTime, i) then SearchResult(n, i, 1)
    else
      AsManyAsAsked(c, w, warm, k, n);
      PredictIsLarger(minTime, i);
      var r := Search(c, minTime, w, warm, k + 1, PredictNumItersNeeded(minTime, i));
      r.(runs := r.runs + 1)
  }

  /** The search ends with a run that is reported and has the accepted count; the count never
      falls below the first one. */
  lemma {:induction false} SearchEndsReported(c: Setting, minTime: real, w: World, warm: bool, k: nat, n: int)
    requires Proper(c, w) && n >= 1
    ensures var r := Search(c, minTime, w, warm, k, n);
      && r.runs >= 1 && r.iters >= n
      && r.last == RunOnce(c, w, warm, k + r.runs - 1, r.iters) && ShouldReport(c, minTime, r.last)
      && (r.runs == 1 || r.iters <= K_MAX_ITERATIONS)
    decreases if n < K_MAX_ITERATIONS then K_MAX_ITERATIONS - n else 0
  {
    var i := RunOnce(c, w, warm, k, n);
    if !ShouldReport(c, minTime, i) {
      AsManyAsAsked(c, w, warm, k, n);
      PredictIsLarger(minTime, i);
      SearchEndsReported(c, minTime, w, warm, k + 1, PredictNumItersNeeded(minTime, i));
    }
  }

  /** One run is enough exactly when it was skipped, it is a dry run, its iterations per thread reach the
      cap, its seconds reach the minimum time, or its real time is five times that without manual time. */
  lemma OneRunExactlyWhen(c: Setting, minTime: real, w: World, warm: bool, k: nat, n: int)
    requires Proper(c, w) && n >= 1
    ensures var t := w(warm, k, n);
      Search(c, minTime, w, warm, k, n).runs == 1 <==>
        || t.skip != NotSkipped
        || c.dryRun
        || t.sum.iterations / c.threads >= 1_000_000_000_000
        || (c.useManualTime && t.sum.manualTime >= minTime)
        || (!c.useManualTime && c.useRealTime && t.sum.realTime >= minTime)
        || (!c.useManualTime && !c.useRealTime && t.sum.cpuTime >= minTime)
        || (!c.useManualTime && t.sum.realTime >= 5.0 * minTime)
  {
    var i := RunOnce(c, w, warm, k, n);
    if !ShouldReport(c, minTime, i) {
      AsManyAsAsked(c, w, warm, k, n);
      PredictIsLarger(minTime, i);
      SearchEndsReported(c, minTime, w, warm, k + 1, PredictNumItersNeeded(minTime, i));
    }
  }

  /** Of all runs of a search only the last one suffices; each of the others is followed by the predicted,
      larger count. */
  lemma {:induction false} AcceptedIsFirst(c: Setting, minTime: real, w: World, warm: bool, k: nat, n: int)
    returns (counts: seq<int>)
    requires Proper(c, w) && n >= 1
    ensures Records(w, warm, k, n, counts, Search(c, minTime, w, warm, k, n))
    ensures OnlyLastSuffices(c, minTime, w, warm, k, counts) && EachFollows(c, minTime, w, warm, k, counts)
    decreases if n < K_MAX_ITERATIONS then K_MAX_ITERATIONS - n else 0
  {
    var i := RunOnce(c, w, warm, k, n);
    SufficesIsReported(c, minTime, w(warm, k, n));
    OneMoreRun(c, minTime, w, warm, k, n);
    counts := [n];
    if !ShouldReport(c, minTime, i) {
      var next := PredictNumItersNeeded(minTime, i);
      var rest := AcceptedIsFirst(c, minTime, w, warm, k + 1, next);
      counts := [n] + rest;
      RecordEarlier(w, warm, k, n, next, rest, Search(c, minTime, w, warm, k + 1, next), Search(c, minTime, w, warm, k, n));
      OneRunEarlier(c, minTime, w, warm, k, n, rest);
    }
  }

  /** A search from n iterations made its runs with these counts and accepted the last of them. */
  predicate Records(w: World, warm: bool, k: nat, n: int, counts: seq<int>, r: SearchResult) {
    && |counts| == r.runs >= 1 && counts[0] == n
    && counts[r.runs - 1] == r.iters && r.last.results == w(warm, k + r.runs - 1, r.iters)
  }

  lemma RecordEarlier(w: World, warm: bool, k: nat, n: int, next: int, rest: seq<int>, r: SearchResult, whole: SearchResult)
    requires Records(w, warm, k + 1, next, rest, r) && SameEnd(whole, r, 1)
    ensures Records(w, warm, k, n, [n] + rest, whole)
  {
    assert k + 1 + r.runs - 1 == k + whole.runs - 1;
  }

  lemma OneRunEarlier(c: Setting, minTime: real, w: World, warm: bool, k: nat, n: int, rest: seq<int>)
    requires c.threads > 0 && rest != []
    requires !Suffices(c, minTime, w(warm, k, n)) && Follows(c, minTime, w(warm, k, n), n, rest[0])
    requires OnlyLastSuffices(c, minTime, w, warm, k + 1, rest) && EachFollows(c, minTime, w, warm, k + 1, rest)
    ensures OnlyLastSuffices(c, minTime, w, warm, k, [n] + rest) && EachFollows(c, minTime, w, warm, k, [n] + rest)
  {
    var counts := [n] + rest;
    forall j | 0 < j < |counts|
      ensures Suffices(c, minTime, w(warm, k + j, counts[j])) <==> j == |counts| - 1
      ensures j < |counts| - 1 ==> Follows(c, minTime, w(warm, k + j, counts[j]), counts[j], counts[j + 1])
    {
      assert k + j == k + 1 + (j - 1) && counts[j] == rest[j - 1];
    }
  }

  ghost predicate OnlyLastSuffices(c: Setting, minTime: real, w: World, warm: bool, k: nat, counts: seq<int>)
    requires c.threads > 0
  {
    forall i :: 0 <= i < |counts| ==> (Suffices(c, minTime, w(warm, k + i, counts[i])) <==> i == |counts| - 1)
  }

  ghost predicate EachFollows(c: Setting, minTime: real, w: World, warm: bool, k: nat, counts: seq<int>)
    requires c.threads > 0
  {
    forall i :: 0 <= i < |counts| - 1 ==> Follows(c, minTime, w(warm, k + i, counts[i]), counts[i], counts[i + 1])
  }

  lemma FirstAndLastRun(c: Setting, minTime: real, w: World, warm: bool, k: nat, n: int)
    requires Proper(c, w) && n >= 1
    ensures var r := Search(c, minTime, w, warm, k, n);
      && (r.runs == 1 <==> Suffices(c, minTime, w(warm, k, n)))
      && r.runs >= 1 && r.last.results == w(warm, k + r.runs - 1, r.iters) && Suffices(c, minTime, r.last.results)
  {
    var counts := AcceptedIsFirst(c, minTime, w, warm, k, n);
  }

  /** `next` is the larger count that is predicted from a run of n iterations with these totals. */
  predicate Follows(c: Setting, minTime: real, t: Totals, n: int, next: int)
    requires c.threads > 0
  {
    n < next == PredictNumItersNeeded(minTime, FromTotals(c, t))
  }

  lemma {:induction false} SlowestAtLeastOne(j: nat)
    ensures 1 <= SlowestAfter(j) <= K_MAX_ITERATIONS
  {
    if j > 0 {
      SlowestAtLeastOne(j - 1);
    }
  }

  lemma {:induction false} SearchRunsFrom(c: Setting, minTime: real, w: World, warm: bool, k: nat, n: int, j: nat)
    requires Proper(c, w) && ONE_NANOSECOND <= minTime && j <= 82 && n >= SlowestAfter(j) && n >= 1
    ensures Search(c, minTime, w, warm, k, n).runs <= 83 - j
    decreases if n < K_MAX_ITERATIONS then K_MAX_ITERATIONS - n else 0
  {
    var i := RunOnce(c, w, warm, k, n);
    SlowestReachesTheCap(j);
    AsManyAsAsked(c, w, warm, k, n);
    if !ShouldReport(c, minTime, i) {
      PredictIsLarger(minTime, i);
      PredictGrows(minTime, i);
      SlowestMonotone(SlowestAfter(j), i.iters);
      SearchRunsFrom(c, minTime, w, warm, k + 1, PredictNumItersNeeded(minTime, i), j + 1);
    }
  }

  /** From any positive start, at most 83 runs are needed when the minimum time is at least 1 ns. */
  lemma SearchBound(c: Setting, minTime: real, w: World, warm: bool, k: nat, n: int)
    requires Proper(c, w) && ONE_NANOSECOND <= minTime && n >= 1
    ensures Search(c, minTime, w, warm, k, n).runs <= 83
  {
    SearchRunsFrom(c, minTime, w, warm, k, n, 0);
  }

  predicate SameEnd(whole: SearchResult, rest: SearchResult, runs: nat) {
    whole.iters == rest.iters && whole.last == rest.last && whole.runs == runs + rest.runs
  }

  lemma OneMoreRun(c: Setting, minTime: real, w: World, warm: bool, k: nat, n: int)
    requires Proper(c, w) && n >= 1
    ensures var i, r := RunOnce(c, w, warm, k, n), Search(c, minTime, w, warm, k, n);
      if ShouldReport(c, minTime, i) then r == SearchResult(n, i, 1)
      else
        && n < K_MAX_ITERATIONS && n < PredictNumItersNeeded(minTime, i)
        && SameEnd(r, Search(c, minTime, w, warm, k + 1, PredictNumItersNeeded(minTime, i)), 1)
  {
    AsManyAsAsked(c, w, warm, k, n);
    var i := RunOnce(c, w, warm, k, n);
    if !ShouldReport(c, minTime, i) {
      PredictIsLarger(minTime, i);
    }
  }

  // ---------------------------------------------------------------- the bound is reached

  /** A benchmark that always misses a minimum time of one second by almost nothing. */
  function JustTooFast(n: int): Totals {
    Totals(Contribution(n, 0.0, 0.99999999999999, 0.0, 0, map[]), NotSkipped)
  }

  const PLAIN := Setting(1.0, 0.0, false, false, false, false, 1, 1)

  lemma JustTooFastGrowsSlowly(n: int)
    requires 1 <= n < K_MAX_ITERATIONS
    ensures var i := FromTotals(PLAIN, JustTooFast(n));
      !ShouldReport(PLAIN, 1.0, i) && PredictNumItersNeeded(1.0, i) == Slowest(n)
  {
    var i := FromTotals(PLAIN, JustTooFast(n));
    assert i.iters == n && i.seconds == 0.99999999999999 && i.results.sum.realTime == 0.0;
    JustTooFastPredicts(n, i);
  }

  lemma JustTooFastPredicts(n: int, i: IterationResults)
    requires 1 <= n < K_MAX_ITERATIONS && i.iters == n && i.seconds == 0.99999999999999
    ensures PredictNumItersNeeded(1.0, i) == Slowest(n)
  {
    JustTooFastFactor(n as real);
    RoundsExactly(Multiplier(1.0, i.seconds) * n as real, n);
  }

  lemma JustTooFastFactor(x: real)
    requires 0.0 <= x <= 1000000000000.0
    ensures 1.4 * x <= Multiplier(1.0, 0.99999999999999) * x <= 1.4 * x + 0.021
  {
    var m := Multiplier(1.0, 0.99999999999999);
    QuotientCompare(1.4, 0.99999999999999, 1.4);
    QuotientCompare(1.4, 0.99999999999999, 1.40000000000002);
    QuotientCompare(0.99999999999999, 1.0, 0.1);
    assert 1.4 <= m < 1.40000000000002;
    MulMono(1.4, m, x);
    MulMono(m, 1.40000000000002, x);
  }

  lemma RoundsExactly(y: real, n: int)
    requires n >= 1 && 1.4 * n as real <= y <= 1.4 * n as real + 0.021
    ensures LlRound(MaxReal(y, n as real + 1.0)) == MaxInt(n + 1, (14 * n + 5) / 10)
  {
    var q := (14 * n + 5) / 10;
    assert 10 * q <= 14 * n + 4;
    RoundsTo(y, q);
    RoundsTo(n as real + 1.0, n + 1);
  }

  lemma RoundsTo(y: real, q: int)
    requires q >= 0 && q as real - 0.5 <= y < q as real + 0.5 && y >= 0.0
    ensures LlRound(y) == q
  {
    assert (y + 0.5).Floor as real <= y + 0.5 < (y + 0.5).Floor as real + 1.0;
  }

  lemma {:induction false} SlowSearchRuns(w: World, k: nat, j: nat)
    requires Proper(PLAIN, w) && j <= 82
    requires forall warm, a, n :: w(warm, a, n) == JustTooFast(n)
    ensures SlowestAfter(j) >= 1 && Search(PLAIN, 1.0, w, false, k, SlowestAfter(j)).runs == 83 - j
    decreases 82 - j
  {
    SlowestAtLeastOne(j);
    SlowestReachesTheCap(j);
    if j < 82 {
      SlowestStaysBelow(j);
      JustTooFastGrowsSlowly(SlowestAfter(j));
      SlowSearchRuns(w, k + 1, j + 1);
    }
  }

  lemma {:induction false} SlowestStaysBelow(j: nat)
    requires j < 82
    ensures SlowestAfter(j) < K_MAX_ITERATIONS
    decreases 82 - j
  {
    SlowestReachesTheCap(j);
    SlowestAtLeastOne(j);
    if j < 81 {
      SlowestStaysBelow(j + 1);
    }
  }

  lemma SlowWorld() returns (w: World)
    ensures Proper(PLAIN, w) && forall warm, k, n :: w(warm, k, n) == JustTooFast(n)
  {
    w := (warm, k, n) => JustTooFast(n);
  }

  /** Some benchmark needs all 83 runs from a single iteration. */
  lemma SearchBoundIsTight(k: nat) returns (w: World)
    ensures Proper(PLAIN, w) && Search(PLAIN, 1.0, w, false, k, 1).runs == 83
  {
    w := SlowWorld();
    SlowSearchRuns(w, k, 0);
  }

  // ---------------------------------------------------------------- the runner object

  datatype Report = Report(repetitionIndex: nat, results: IterationResults)

  class BenchmarkRunner {
    const setting: Setting
    var warmupDone: bool
    var numRepetitionsDone: nat
    var iters: int
    var nonAggregates: seq<Report>

    constructor (setting: Setting, iters: int)
      ensures this.setting == setting && numRepetitionsDone == 0 && nonAggregates == []
      ensures this.iters == if setting.dryRun || !setting.explicitIters then 1 else iters
      ensures warmupDone == (setting.dryRun || setting.minWarmupTime <= 0.0)
    {
      this.setting := setting;
      this.iters := if setting.dryRun || !setting.explicitIters then 1 else iters;
      warmupDone := setting.dryRun || !(setting.minWarmupTime > 0.0);
      numRepetitionsDone, nonAggregates := 0, [];
    }

    predicate HasRepeatsRemaining()
      reads this
    {
      setting.repeats != numRepetitionsDone
    }

    function GetMinTimeToApply(): real
      reads this
    {
      if warmupDone then setting.minTime else setting.minWarmupTime
    }

    method DoNIterations(w: World, warm: bool, k: nat) returns (i: IterationResults)
      requires setting.threads > 0
      ensures i == RunOnce(setting, w, warm, k, iters) && i.results == w(warm, k, iters)
      ensures i.iters * setting.threads <= i.results.sum.iterations < (i.iters + 1) * setting.threads
      ensures setting.useManualTime ==> i.seconds == i.results.sum.manualTime
      ensures !setting.useManualTime && setting.useRealTime ==> i.seconds == i.results.sum.realTime
      ensures !setting.useManualTime && !setting.useRealTime ==> i.seconds == i.results.sum.cpuTime
    {
      DivBounds(w(warm, k, iters).sum.iterations, setting.threads);
      i := FromTotals(setting, w(warm, k, iters));
    }

    /** A warm-up is the same search with the warm-up time; it leaves the count as it was. */
    method RunWarmUp(w: World) returns (runs: nat)
      requires Proper(setting, w) && iters >= 1 && !warmupDone
      modifies this`warmupDone, this`iters
      ensures warmupDone && iters == old(iters)
      ensures runs == Search(setting, setting.minWarmupTime, w, true, 0, iters).runs
      ensures runs == 1 <==> Suffices(setting, setting.minWarmupTime, w(true, 0, iters))
    {
      FirstAndLastRun(setting, setting.minWarmupTime, w, true, 0, iters);
      var backup := iters;
      runs := 0;
      while true
        invariant iters >= 1 && !warmupDone
        invariant SameEnd(Search(setting, setting.minWarmupTime, w, true, 0, backup),
                          Search(setting, setting.minWarmupTime, w, true, runs, iters), runs)
        decreases if iters < K_MAX_ITERATIONS then K_MAX_ITERATIONS - iters else 0
      {
        var i := DoNIterations(w, true, runs);
        OneMoreRun(setting, setting.minWarmupTime, w, true, runs, iters);
        runs := runs + 1;
        if ShouldReport(setting, GetMinTimeToApply(), i) {
          warmupDone, iters := true, backup;
          return;
        }
        iters := PredictNumItersNeeded(GetMinTimeToApply(), i);
      }
    }

    /** What one repetition computes: only the first one of a benchmark without an explicit count
        searches, all others run the count they find. */
    ghost function Repetition(w: World): SearchResult
      reads this
      requires Proper(setting, w) && iters >= 1
    {
      if numRepetitionsDone == 0 && !setting.explicitIters then Search(setting, setting.minTime, w, false, 0, iters)
      else SearchResult(iters, RunOnce(setting, w, false, 0, iters), 1)
    }

    method DoOneRepetition(w: World) returns (runs: nat)
      requires HasRepeatsRemaining() && Proper(setting, w) && iters >= 1
      modifies this
      ensures numRepetitionsDone == old(numRepetitionsDone) + 1 && warmupDone
      ensures var r := old(Repetition(w));
        && iters == r.iters && runs == r.runs
        && nonAggregates == old(nonAggregates) + [Report(old(numRepetitionsDone), r.last)]
      ensures old(numRepetitionsDone) > 0 || setting.explicitIters ==>
        runs == 1 && iters == old(iters) && nonAggregates[|nonAggregates| - 1].results.results == w(false, 0, iters)
      ensures old(numRepetitionsDone) == 0 && !setting.explicitIters ==>
        SearchResult(iters, nonAggregates[|nonAggregates| - 1].results, runs)
          == Search(setting, setting.minTime, w, false, 0, old(iters))
    {
      if !warmupDone {
        var _ := RunWarmUp(w);
      }
      var i;
      i, runs := FindIterations(w);
      nonAggregates := nonAggregates + [Report(numRepetitionsDone, i)];
      numRepetitionsDone := numRepetitionsDone + 1;
    }

    /** The loop of DoOneRepetition. */
    method FindIterations(w: World) returns (i: IterationResults, runs: nat)
      requires Proper(setting, w) && iters >= 1 && warmupDone
      modifies this`iters
      ensures SearchResult(iters, i, runs) == old(Repetition(w)) && iters >= 1
      ensures i.results == w(false, runs - 1, iters)
      ensures numRepetitionsDone > 0 || setting.explicitIters ==> runs == 1 && iters == old(iters)
      ensures numRepetitionsDone == 0 && !setting.explicitIters ==>
        && Suffices(setting, setting.minTime, i.results)
        && (runs == 1 <==> Suffices(setting, setting.minTime, w(false, 0, old(iters))))
    {
      FirstAndLastRun(setting, setting.minTime, w, false, 0, iters);
      var isFirst := numRepetitionsDone == 0;
      ghost var whole := Repetition(w);
      runs := 0;
      while true
        invariant iters >= 1
        invariant if isFirst && !setting.explicitIters
          then SameEnd(whole, Search(setting, setting.minTime, w, false, runs, iters), runs)
          else runs == 0 && iters == old(iters)
        decreases if iters < K_MAX_ITERATIONS then K_MAX_ITERATIONS - iters else 0
      {
        i := DoNIterations(w, false, runs);
        OneMoreRun(setting, setting.minTime, w, false, runs, iters);
        runs := runs + 1;
        if !isFirst || setting.explicitIters || ShouldReport(setting, GetMinTimeToApply(), i) {
          return;
        }
        iters := PredictNumItersNeeded(GetMinTimeToApply(), i);
      }
    }
  }
}
