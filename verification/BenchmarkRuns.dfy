/** One run of a benchmark put together: a State on every thread, the protocol between the threads, and the
    count that the runner sees (google_benchmark/src/benchmark_runner.cc). */
module BenchmarkRuns {
  import opened Sums
  import opened UserCounters
  import opened Scripts
  import BenchState
  import BenchStateTheorems
  import StartStop
  import StartStopTheorems
  import Runner

  /** What one thread's benchmark function does with its State. */
  datatype Loop = Loop(start: BenchState.St, ops: seq<BenchState.Op>)

  function End(l: Loop): BenchState.St {
    BenchState.Exec(l.start, l.ops)
  }

  /** A legal use of a State that was asked for `max` iterations, up to the end of its loop or a skip. */
  predicate IsWholeLoop(l: Loop, max: int) {
    && BenchStateTheorems.IsInit(l.start) && l.start.max == max
    && BenchState.LegalRun(l.start, l.ops) && BenchStateTheorems.MonotoneClock(l.ops)
    && (End(l).finished || BenchState.Skipped(End(l)))
  }

  /** The thread runs the history of the loop and contributes its iterations and the times of its timer. */
  predicate RunsLoop(th: StartStop.Thread, l: Loop, max: int) {
    && IsWholeLoop(l, max)
    && th.script == BenchState.Script(End(l).log)
    && th.contrib.iterations == BenchState.Iterations(End(l))
    && th.contrib.realTime == End(l).timer.realUsed && th.contrib.cpuTime == End(l).timer.cpuUsed
  }

  // ---------------------------------------------------------------- one State

  lemma LeftoverStep(s: BenchState.St, op: BenchState.Op)
    requires BenchState.Legal(s, op) && s.leftover >= 0
    ensures BenchState.Do(s, op).leftover >= 0
  {
    if op.Keep? {
      KeepLeftover(s, op.n, op.isBatch, op.at);
    }
  }

  lemma KeepLeftover(s: BenchState.St, n: int, isBatch: bool, at: BenchState.Now)
    requires BenchState.MayKeepRunning(s, n, isBatch) && s.leftover >= 0
    ensures BenchState.KeepRunning(s, n, isBatch, at).0.leftover >= 0
  {
  }

  lemma {:induction false} LeftoverNotNegative(s0: BenchState.St, ops: seq<BenchState.Op>, k: nat)
    requires BenchStateTheorems.IsInit(s0) && BenchState.LegalRun(s0, ops) && k <= |ops|
    ensures BenchState.Exec(s0, ops[..k]).leftover >= 0
  {
    if k > 0 {
      LeftoverNotNegative(s0, ops, k - 1);
      BenchStateTheorems.ExecStep(s0, ops, k - 1);
      LeftoverStep(BenchState.Exec(s0, ops[..k - 1]), ops[k - 1]);
    }
  }

  /** The check of RunInThread holds whenever the loop was left or skipped, however it was written. */
  lemma EarlyReturnCheckHolds(l: Loop, max: int)
    requires IsWholeLoop(l, max)
    ensures BenchState.Skipped(End(l)) || BenchState.Iterations(End(l)) >= max
  {
    LeftoverNotNegative(l.start, l.ops, |l.ops|);
    BenchStateTheorems.RunKeeps(l.start, l.ops, |l.ops|);
    assert l.ops[..|l.ops|] == l.ops;
  }

  lemma {:induction false} SkipInScript(ops: seq<UserOp>) returns (j: nat)
    requires LocalAfter(ops).skipped
    ensures j < |ops| && ops[j].SkipWith?
  {
    var last := |ops| - 1;
    if ops[last].SkipWith? {
      j := last;
    } else {
      j := SkipInScript(ops[..last]);
    }
  }

  // ---------------------------------------------------------------- skips in the protocol

  /** No skip goes unnoticed: once a thread has skipped, the result says so. */
  predicate SkipsNoticed(s: StartStop.Sys) {
    forall i :: 0 <= i < |s.threads| ==> SkipNoticed(s.threads[i], s.results.skip)
  }

  predicate SkipNoticed(th: StartStop.Thread, skip: Skip) {
    forall j :: 0 <= j < th.at && j < |th.script| && th.script[j].SkipWith? ==> skip != NotSkipped
  }

  predicate RealSkips(ths: seq<StartStop.Thread>) {
    forall i :: 0 <= i < |ths| ==> RealSkipsOnly(ths[i])
  }

  predicate RealSkipsOnly(th: StartStop.Thread) {
    forall j :: 0 <= j < |th.script| && th.script[j].SkipWith? ==> th.script[j].skip != NotSkipped
  }

  /** A thread moves on in its script only by executing the next call, and a skip is recorded then. */
  predicate StepsOver(th: StartStop.Thread, x: StartStop.Thread, skip: Skip) {
    && x.script == th.script
    && (x.at == th.at
        || (x.at == th.at + 1 && 0 <= th.at < |th.script| &&
            (th.script[th.at].SkipWith? && th.script[th.at].skip != NotSkipped ==> skip != NotSkipped)))
  }

  lemma StepNotices(s: StartStop.Sys, a: StartStop.Action, i: nat)
    requires StartStop.BarrierInv(s) && StartStop.Enabled(s, a) && i < |s.threads|
    ensures var r := StartStop.Apply(s, a);
      && |r.threads| == |s.threads| && (s.results.skip != NotSkipped ==> r.results.skip != NotSkipped)
      && StepsOver(s.threads[i], r.threads[i], r.results.skip)
  {
    assert StartStop.ThreadOk(s.threads[i], i, s.bar, s.passed);
    if a != StartStop.Step(i) {
      assert StartStop.Apply(s, a).threads[i] in {s.threads[i], StartStop.Wake(s.threads[i])};
    }
  }

  lemma {:induction false} SkipsAlwaysNoticed(run: seq<StartStop.Sys>, acts: seq<StartStop.Action>, k: nat)
    requires StartStop.IsRun(run, acts) && k < |run| && RealSkips(run[0].threads)
    ensures SkipsNoticed(run[k])
  {
    if k > 0 {
      SkipsAlwaysNoticed(run, acts, k - 1);
      StartStopTheorems.Always(run, acts, k - 1);
      StartStopTheorems.HistoryAlways(run, acts, k - 1);
      SameRealSkips(run[0].threads, run[k - 1].threads);
      SkipsStayNoticed(run[k - 1], acts[k - 1]);
    }
  }

  lemma SameRealSkips(a: seq<StartStop.Thread>, b: seq<StartStop.Thread>)
    requires RealSkips(a) && StartStopTheorems.SameScripts(a, b)
    ensures RealSkips(b)
  {
    forall i | 0 <= i < |b| ensures RealSkipsOnly(b[i]) {
      assert RealSkipsOnly(a[i]);
    }
  }

  lemma SkipsStayNoticed(s: StartStop.Sys, a: StartStop.Action)
    requires StartStop.BarrierInv(s) && StartStop.Enabled(s, a) && SkipsNoticed(s) && RealSkips(s.threads)
    ensures SkipsNoticed(StartStop.Apply(s, a))
  {
    var r := StartStop.Apply(s, a);
    StepNotices(s, a, 0);
    forall i: nat | i < |r.threads| ensures SkipNoticed(r.threads[i], r.results.skip) {
      StepNotices(s, a, i);
      ThreadStaysNoticed(s.threads[i], r.threads[i], s.results.skip, r.results.skip);
    }
  }

  lemma ThreadStaysNoticed(th: StartStop.Thread, x: StartStop.Thread, skip: Skip, skip': Skip)
    requires SkipNoticed(th, skip) && RealSkipsOnly(th) && StepsOver(th, x, skip')
    requires skip != NotSkipped ==> skip' != NotSkipped
    ensures SkipNoticed(x, skip')
  {
  }

  // ---------------------------------------------------------------- the whole run

  predicate AllRunLoops(ths: seq<StartStop.Thread>, loops: seq<Loop>, max: int) {
    |loops| == |ths| && forall i :: 0 <= i < |ths| ==> RunsLoop(ths[i], loops[i], max)
  }

  /** The scripts of whole loops are legal, so all theorems about the protocol apply to them. */
  lemma LoopsAreLegal(ths: seq<StartStop.Thread>, loops: seq<Loop>, max: int)
    requires AllRunLoops(ths, loops, max)
    ensures RealSkips(ths) && forall i :: 0 <= i < |ths| ==> LegalScript(ths[i].script)
  {
    forall i | 0 <= i < |ths|
      ensures LegalScript(ths[i].script)
      ensures RealSkipsOnly(ths[i])
    {
      assert RunsLoop(ths[i], loops[i], max);
      BenchStateTheorems.HistoryIsLegalScript(loops[i].start, loops[i].ops);
      forall j | 0 <= j < |ths[i].script| && ths[i].script[j].SkipWith?
        ensures ths[i].script[j].skip != NotSkipped
      {
        assert LegalOp(LocalAfter(ths[i].script[..j]), ths[i].script[j]);
      }
    }
  }

  /** A thread that skipped leaves a skipped result behind. */
  lemma SkippedLoopIsNoticed(s: StartStop.Sys, i: nat, l: Loop, max: int)
    requires SkipsNoticed(s) && i < |s.threads| && RunsLoop(s.threads[i], l, max)
    requires s.threads[i].at == |s.threads[i].script| && BenchState.Skipped(End(l))
    ensures s.results.skip != NotSkipped
  {
    BenchStateTheorems.RunKeeps(l.start, l.ops, |l.ops|);
    assert l.ops[..|l.ops|] == l.ops;
    var j := SkipInScript(s.threads[i].script);
  }

  /** When all threads ran their loops and nothing is reported as skipped, every thread ran at least
      the iterations that were asked for. */
  lemma ThreadsRunAsAsked(run: seq<StartStop.Sys>, acts: seq<StartStop.Action>, k: nat, loops: seq<Loop>, max: int)
    requires StartStop.IsRun(run, acts) && k < |run| && run[k].waiter == StartStop.Returned
    requires AllRunLoops(run[0].threads, loops, max) && run[k].results.skip == NotSkipped
    ensures forall i :: 0 <= i < |run[0].threads| ==> run[0].threads[i].contrib.iterations >= max
  {
    LoopsAreLegal(run[0].threads, loops, max);
    SkipsAlwaysNoticed(run, acts, k);
    forall i | 0 <= i < |run[0].threads| ensures run[0].threads[i].contrib.iterations >= max {
      ThreadHasReturned(run, acts, k, i);
      assert RunsLoop(run[0].threads[i], loops[i], max);
      ThreadRanAsAsked(run[k], i, loops[i], max);
    }
  }

  /** When the main thread goes on, every thread has executed its whole script. */
  lemma ThreadHasReturned(run: seq<StartStop.Sys>, acts: seq<StartStop.Action>, k: nat, i: nat)
    requires StartStop.IsRun(run, acts) && k < |run| && run[k].waiter == StartStop.Returned && i < |run[0].threads|
    ensures i < |run[k].threads| && run[k].threads[i].at == |run[k].threads[i].script|
    ensures run[k].threads[i].script == run[0].threads[i].script
    ensures run[k].threads[i].contrib == run[0].threads[i].contrib
  {
    StartStopTheorems.Always(run, acts, k);
    StartStopTheorems.WaitReturnsTheTotals(run, acts, k);
    assert StartStop.ThreadOk(run[k].threads[i], i, run[k].bar, run[k].passed);
  }

  lemma ThreadRanAsAsked(s: StartStop.Sys, i: nat, l: Loop, max: int)
    requires SkipsNoticed(s) && s.results.skip == NotSkipped && i < |s.threads|
    requires RunsLoop(s.threads[i], l, max) && s.threads[i].at == |s.threads[i].script|
    ensures s.threads[i].contrib.iterations >= max
  {
    if BenchState.Skipped(End(l)) {
      SkippedLoopIsNoticed(s, i, l, max);
    }
    EarlyReturnCheckHolds(l, max);
  }

  /** The merged iterations are at least those asked of all threads together, in every interleaving. */
  lemma MergedIterations(run: seq<StartStop.Sys>, acts: seq<StartStop.Action>, k: nat, loops: seq<Loop>, max: int)
    requires StartStop.IsRun(run, acts) && k < |run| && run[k].waiter == StartStop.Returned
    requires AllRunLoops(run[0].threads, loops, max) && run[k].results.skip == NotSkipped
    ensures run[k].results.sum.iterations >= |run[0].threads| * max
    ensures run[k].results.sum.iterations / |run[0].threads| >= max
  {
    ThreadsRunAsAsked(run, acts, k, loops, max);
    StartStopTheorems.ReportedIterations(run, acts, k, max);
    StartStopTheorems.WaitReturnsTheTotals(run, acts, k);
    StartStopTheorems.AtLeast(run[0].threads, StartStopTheorems.Iterations, max);
  }

  function LoopIterations(): Loop -> int {
    (l: Loop) => BenchState.Iterations(End(l))
  }

  /** The real time between the timer starts and stops of the loop. */
  function SlicesOf(): Loop -> real {
    (l: Loop) => BenchState.SliceTime(End(l).log)
  }

  /** The CPU time between them. */
  function CpuTimeOf(): Loop -> real {
    (l: Loop) => BenchState.CpuSlices(End(l).log)
  }

  /** The merged result adds up what the loops did: iterations, and real and CPU time slice by slice. */
  lemma MergedLoops(run: seq<StartStop.Sys>, acts: seq<StartStop.Action>, k: nat, loops: seq<Loop>, max: int)
    requires StartStop.IsRun(run, acts) && k < |run| && run[k].waiter == StartStop.Returned
    requires AllRunLoops(run[0].threads, loops, max)
    ensures run[k].results.sum.iterations == Sum(loops, LoopIterations())
    ensures run[k].results.sum.realTime == SumReal(loops, SlicesOf())
    ensures run[k].results.sum.cpuTime == SumReal(loops, CpuTimeOf())
  {
    var ths := run[0].threads;
    StartStopTheorems.WaitReturnsTheTotals(run, acts, k);
    forall i | 0 <= i < |ths|
      ensures StartStopTheorems.Iterations(ths[i]) == LoopIterations()(loops[i])
      ensures StartStopTheorems.RealTime(ths[i]) == SlicesOf()(loops[i])
      ensures StartStopTheorems.CpuTime(ths[i]) == CpuTimeOf()(loops[i])
    {
      LoopContributes(ths[i], loops[i], max);
    }
    SumPointwise(ths, StartStopTheorems.Iterations, loops, LoopIterations());
    SumRealSame(ths, StartStopTheorems.RealTime, loops, SlicesOf());
    SumRealSame(ths, StartStopTheorems.CpuTime, loops, CpuTimeOf());
  }

  lemma LoopContributes(th: StartStop.Thread, l: Loop, max: int)
    requires RunsLoop(th, l, max)
    ensures StartStopTheorems.Iterations(th) == LoopIterations()(l)
    ensures StartStopTheorems.RealTime(th) == SlicesOf()(l)
    ensures StartStopTheorems.CpuTime(th) == CpuTimeOf()(l)
  {
    BenchStateTheorems.TimingSlices(l.start, l.ops);
  }

  // ---------------------------------------------------------------- the runner's view

  /** The totals are those of some run of the protocol in which every thread ran its loop. */
  ghost predicate Produced(threads: int, max: int, t: Totals) {
    exists run, acts, k, loops :: ProducedBy(threads, max, t, run, acts, k, loops)
  }

  ghost predicate ProducedBy(threads: int, max: int, t: Totals, run: seq<StartStop.Sys>,
                             acts: seq<StartStop.Action>, k: nat, loops: seq<Loop>) {
    && StartStop.IsRun(run, acts) && k < |run| && run[k].waiter == StartStop.Returned && run[k].results == t
    && |run[0].threads| == threads && AllRunLoops(run[0].threads, loops, max)
  }

  /** A world in which every run of the benchmark is such a run is one that the search relies on. */
  lemma RunsMakeAProperWorld(c: Runner.Setting, w: Runner.World)
    requires c.threads > 0
    requires forall warm, k, n :: n >= 1 ==> Produced(c.threads, n, w(warm, k, n))
    ensures Runner.Proper(c, w)
  {
    forall warm, k, n | n >= 1 && w(warm, k, n).skip == NotSkipped
      ensures w(warm, k, n).sum.iterations >= c.threads * n
    {
      var run, acts, at: nat, loops :| ProducedBy(c.threads, n, w(warm, k, n), run, acts, at, loops);
      MergedIterations(run, acts, at, loops, n);
    }
  }
}
