/** What holds in every run of the start/stop protocol: no lost wake-up, no deadlock,
    termination, lockstep, the documented start/stop guarantee, and conservation of results. */
module StartStopTheorems {
  import opened Sums
  import opened PhaseBarrier
  import opened UserCounters
  import opened Scripts
  import opened StartStop
  import opened StartStopInvariant

  predicate Completed(th: Thread) {
    !Live(th)
  }

  // ---------------------------------------------------------------- history

  /** Who passed a phase has entered it, and a thread inside wait() last executed a Wait. */
  predicate HistoryOk(s: Sys) {
    && (forall p :: 0 <= p < |s.passed| ==> s.passed[p] < |s.threads| && Entries(s.threads[s.passed[p]]) > p)
    && (forall i :: 0 <= i < |s.threads| ==> LastWaited(s.threads[i]))
  }

  predicate LastWaited(th: Thread) {
    InWait(th) || th.pc.Notifying? ==> 0 < th.at <= |th.script| && th.script[th.at - 1] == Wait
  }

  /** `x` is thread `th` one step later. */
  predicate Grows(th: Thread, x: Thread) {
    && x.script == th.script && x.contrib == th.contrib && Entries(x) >= Entries(th)
    && (LastWaited(th) ==> LastWaited(x))
  }

  lemma OwnStep(s: Sys, t: nat)
    requires Enabled(s, Step(t)) && s.threads[t].at <= |s.threads[t].script|
    ensures |Apply(s, Step(t)).threads| == |s.threads|
    ensures Grows(s.threads[t], Apply(s, Step(t)).threads[t])
  {
    if s.threads[t].pc.User? && s.threads[t].at < |s.threads[t].script| {
      WaitsStep(s.threads[t]);
    }
  }

  lemma OneStep(s: Sys, a: Action, i: nat)
    requires BarrierInv(s) && Enabled(s, a) && i < |s.threads|
    ensures |Apply(s, a).threads| == |s.threads|
    ensures Grows(s.threads[i], Apply(s, a).threads[i])
  {
    assert ThreadOk(s.threads[i], i, s.bar, s.passed);
    if a == Step(i) {
      OwnStep(s, i);
    } else {
      assert Apply(s, a).threads[i] in {s.threads[i], Wake(s.threads[i])};
    }
  }

  lemma NewWinner(s: Sys, a: Action)
    requires BarrierInv(s) && Enabled(s, a) && Apply(s, a).passed != s.passed
    ensures a.Step? && Apply(s, a).passed == s.passed + [a.t]
    ensures |Apply(s, a).threads| == |s.threads| && Entries(Apply(s, a).threads[a.t]) > |s.passed|
  {
    assert ThreadOk(s.threads[a.t], a.t, s.bar, s.passed);
    if s.threads[a.t].pc.User? {
      WaitsStep(s.threads[a.t]);
    }
  }

  predicate SameScripts(a: seq<Thread>, b: seq<Thread>) {
    |a| == |b| && forall i :: 0 <= i < |a| ==> b[i].script == a[i].script && b[i].contrib == a[i].contrib
  }

  lemma SameScriptsChain(a: seq<Thread>, b: seq<Thread>, c: seq<Thread>)
    requires SameScripts(a, b) && SameScripts(b, c)
    ensures SameScripts(a, c)
  {
  }

  lemma HistoryKept(s: Sys, a: Action, r: Sys)
    requires BarrierInv(s) && HistoryOk(s) && Enabled(s, a) && r == Apply(s, a)
    ensures HistoryOk(r) && SameScripts(s.threads, r.threads)
  {
    forall i: nat | i < |s.threads|
      ensures |r.threads| == |s.threads| && Grows(s.threads[i], r.threads[i]) && LastWaited(r.threads[i])
    {
      OneStep(s, a, i);
    }
    if r.passed != s.passed {
      NewWinner(s, a);
    }
  }

  lemma {:induction false} HistoryAlways(run: seq<Sys>, acts: seq<Action>, k: nat)
    requires IsRun(run, acts) && k < |run|
    ensures HistoryOk(run[k]) && SameScripts(run[0].threads, run[k].threads)
  {
    if k > 0 {
      HistoryAlways(run, acts, k - 1);
      BarrierAlways(run, acts, k - 1);
      HistoryKept(run[k - 1], acts[k - 1], run[k]);
      SameScriptsChain(run[0].threads, run[k - 1].threads, run[k].threads);
    }
  }

  lemma BarrierAlways(run: seq<Sys>, acts: seq<Action>, k: nat)
    requires IsRun(run, acts) && k < |run|
    ensures BarrierInv(run[k]) && EndInv(run[k])
  {
    InvAlways(run, acts, k);
  }

  lemma Always(run: seq<Sys>, acts: seq<Action>, k: nat)
    requires IsRun(run, acts) && k < |run|
    ensures BarrierInv(run[k]) && EndInv(run[k]) && HistoryOk(run[k])
    ensures |run[k].threads| == |run[0].threads|
    ensures forall i :: 0 <= i < |run[0].threads| ==>
      run[k].threads[i].script == run[0].threads[i].script && run[k].threads[i].contrib == run[0].threads[i].contrib
  {
    BarrierAlways(run, acts, k);
    HistoryAlways(run, acts, k);
  }

  // ---------------------------------------------------------------- lockstep

  /** In every reachable state the two counters of the barrier are what their names say, the
      check on entry holds for whoever enters next, a waiter is in the current or the previous
      phase, and every live thread is in the same round as all the others. */
  lemma Lockstep(run: seq<Sys>, acts: seq<Action>, k: nat)
    requires IsRun(run, acts) && k < |run|
    ensures var s := run[k];
      && s.bar.running == CountLive(s.threads)
      && s.bar.entered == CountWaiting(s.threads, s.bar.phase)
      && (forall t :: 0 <= t < |s.threads| && s.threads[t].pc.User? ==> Enter(s.bar).1 != CheckFailed)
      && (forall t :: 0 <= t < |s.threads| ==> !s.threads[t].pc.Aborted?)
      && (forall t :: 0 <= t < |s.threads| && InWait(s.threads[t]) ==>
            s.bar.phase - 1 <= s.threads[t].pc.cp <= s.bar.phase && Entries(s.threads[t]) == s.threads[t].pc.cp + 1)
      && (forall t, u :: 0 <= t < |s.threads| && 0 <= u < |s.threads| && Live(s.threads[t]) && Live(s.threads[u])
            ==> Entries(s.threads[t]) <= Entries(s.threads[u]) + 1)
  {
    Always(run, acts, k);
    WaitingAmongLive(run[k].threads, run[k].bar.phase);
  }

  /** For every finished phase exactly one thread's wait() returns true. */
  lemma OneWinnerPerPhase(run: seq<Sys>, acts: seq<Action>, k: nat, p: nat)
    requires IsRun(run, acts) && k < |run| && p < run[k].bar.phase
    ensures p < |run[k].passed| && run[k].passed[p] < |run[k].threads|
    ensures var w := run[k].threads[run[k].passed[p]];
      if p < |w.got| then w.got[p] else p == |w.got| && w.pc.Notifying?
    ensures forall t :: 0 <= t < |run[k].threads| && p < |run[k].threads[t].got| ==>
      (run[k].threads[t].got[p] <==> t == run[k].passed[p])
  {
    Always(run, acts, k);
    var s := run[k];
    assert ThreadOk(s.threads[s.passed[p]], s.passed[p], s.bar, s.passed);
    forall t | 0 <= t < |s.threads| && p < |s.threads[t].got|
      ensures s.threads[t].got[p] <==> t == s.passed[p]
    {
      assert ThreadOk(s.threads[t], t, s.bar, s.passed);
    }
  }

  /** Nobody has returned from more wait() calls than any uncompleted thread has made. */
  lemma NobodyRunsAhead(run: seq<Sys>, acts: seq<Action>, k: nat, t: nat, u: nat)
    requires IsRun(run, acts) && k < |run| && t < |run[k].threads| && u < |run[k].threads|
    ensures Completed(run[k].threads[u]) || Entries(run[k].threads[u]) >= |run[k].threads[t].got|
  {
    Always(run, acts, k);
    assert ThreadOk(run[k].threads[t], t, run[k].bar, run[k].passed);
    assert ThreadOk(run[k].threads[u], u, run[k].bar, run[k].passed);
  }

  // ---------------------------------------------------------------- the documented guarantee

  /** Every thread makes only legal calls; it may return with its loop still open. */
  predicate LegalCalls(s: Sys) {
    forall i :: 0 <= i < |s.threads| ==> LegalPrefix(s.threads[i].script)
  }

  /** The thread has returned although its loop was neither finished nor skipped. */
  predicate ReturnedEarly(th: Thread) {
    Completed(th) && !LegalScript(th.script)
  }

  predicate Timing(th: Thread) {
    th.at <= |th.script| && LocalAfter(th.script[..th.at]).timing
  }

  /** Start: a thread runs a loop iteration only after every other thread has reached the loop
      start or completed. */
  lemma NoIterationBeforeAllStarted(run: seq<Sys>, acts: seq<Action>, k: nat, t: nat)
    requires IsRun(run, acts) && LegalCalls(run[0]) && k < |acts| && acts[k] == Step(t)
    requires run[k].threads[t].pc.User? && run[k].threads[t].at < |run[k].threads[t].script|
    requires run[k].threads[t].script[run[k].threads[t].at] == Iterate
    ensures forall u :: 0 <= u < |run[k].threads| ==>
      Completed(run[k].threads[u]) || Entries(run[k].threads[u]) >= 1
  {
    Always(run, acts, k);
    var th := run[k].threads[t];
    assert ThreadOk(th, t, run[k].bar, run[k].passed);
    LocalFacts(th.script[..th.at]);
    assert LegalPrefix(run[0].threads[t].script);
    forall u: nat | u < |run[k].threads|
      ensures Completed(run[k].threads[u]) || Entries(run[k].threads[u]) >= 1
    {
      NobodyRunsAhead(run, acts, k, t, u);
    }
  }

  /** End: once a thread has left the loop, every other thread has run its last iteration, and has
      stopped its timer unless it returned early. */
  lemma NoExitBeforeAllFinished(run: seq<Sys>, acts: seq<Action>, k: nat, t: nat)
    requires IsRun(run, acts) && LegalCalls(run[0]) && k < |run| && t < |run[k].threads|
    requires |run[k].threads[t].got| >= 2
    ensures forall u :: 0 <= u < |run[k].threads| ==>
      && (!Timing(run[k].threads[u]) || ReturnedEarly(run[k].threads[u]))
      && forall j :: run[k].threads[u].at <= j < |run[k].threads[u].script| ==>
           run[k].threads[u].script[j] != Iterate
  {
    Always(run, acts, k);
    forall u: nat | u < |run[k].threads|
      ensures !Timing(run[k].threads[u]) || ReturnedEarly(run[k].threads[u])
      ensures forall j :: run[k].threads[u].at <= j < |run[k].threads[u].script| ==>
           run[k].threads[u].script[j] != Iterate
    {
      var th := run[k].threads[u];
      assert ThreadOk(th, u, run[k].bar, run[k].passed);
      assert LegalPrefix(run[0].threads[u].script);
      NobodyRunsAhead(run, acts, k, t, u);
      LegalShorter(th.script, th.at);
      LocalFacts(th.script[..th.at]);
      if Completed(th) {
        assert th.script[..th.at] == th.script;
      }
      forall j | th.at <= j < |th.script| ensures th.script[j] != Iterate {
        LocalFacts(th.script[..j]);
        WaitsMonotone(th.script, th.at, j);
      }
    }
  }

  /** The timer is off inside wait() and once a whole script has ended. */
  lemma TimerOffOutside(th: Thread)
    requires LegalPrefix(th.script) && LastWaited(th)
    ensures Timing(th) ==> !InWait(th) && !th.pc.Notifying? && (th.at < |th.script| || !LegalScript(th.script))
  {
    LocalFacts(th.script);
    if InWait(th) || th.pc.Notifying? {
      var ops := th.script[..th.at];
      assert ops[..th.at - 1] == th.script[..th.at - 1];
      assert LegalOp(LocalAfter(ops[..th.at - 1]), Wait);
    } else if th.at == |th.script| {
      assert th.script[..th.at] == th.script;
    }
  }

  /** Timed intervals: while any timer runs, of a thread that did not return early, every thread has
      reached the loop start or completed, and none has passed the loop end. */
  lemma TimersRunInsideTheLoop(run: seq<Sys>, acts: seq<Action>, k: nat, t: nat)
    requires IsRun(run, acts) && LegalCalls(run[0]) && k < |run| && t < |run[k].threads|
    requires Timing(run[k].threads[t]) && !ReturnedEarly(run[k].threads[t])
    ensures forall u :: 0 <= u < |run[k].threads| ==>
      && (Completed(run[k].threads[u]) || Entries(run[k].threads[u]) >= 1)
      && |run[k].threads[u].got| <= 1
  {
    Always(run, acts, k);
    var th := run[k].threads[t];
    var ops := th.script[..th.at];
    assert ThreadOk(th, t, run[k].bar, run[k].passed);
    assert LegalPrefix(run[0].threads[t].script);
    LegalShorter(th.script, th.at);
    LocalFacts(ops);
    TimerOffOutside(th);
    forall u: nat | u < |run[k].threads|
      ensures Completed(run[k].threads[u]) || Entries(run[k].threads[u]) >= 1
      ensures |run[k].threads[u].got| <= 1
    {
      NobodyRunsAhead(run, acts, k, t, u);
      NobodyRunsAhead(run, acts, k, u, t);
    }
  }

  // ---------------------------------------------------------------- liveness

  predicate Finished(s: Sys) {
    s.waiter == Returned && forall i :: 0 <= i < |s.threads| ==> s.threads[i].pc.Done?
  }

  predicate IsSpurious(a: Action) {
    a.SpuriousWake? || a.SpuriousMain?
  }

  ghost predicate CanMove(s: Sys) {
    Enabled(s, Main) || exists t: nat :: Enabled(s, Step(t))
  }

  /** No lost wake-up, at the barrier and at the end condition: whoever sleeps although the
      awaited predicate holds has a notify_all still to come, from a thread that can move. */
  lemma NoLostWakeups(run: seq<Sys>, acts: seq<Action>, k: nat)
    requires IsRun(run, acts) && k < |run|
    ensures (exists i :: 0 <= i < |run[k].threads| && run[k].threads[i].pc.Asleep?
                      && MayProceed(run[k].bar, run[k].threads[i].pc.cp))
      ==> exists n: nat :: n < |run[k].threads| && run[k].threads[n].pc.Notifying? && Enabled(run[k], Step(n))
    ensures run[k].waiter == Sleeping && run[k].alive == 0
      ==> exists n: nat :: n < |run[k].threads| && run[k].threads[n].pc.LastOut? && Enabled(run[k], Step(n))
  {
    Always(run, acts, k);
    var s := run[k];
    if i :| 0 <= i < |s.threads| && s.threads[i].pc.Asleep? && MayProceed(s.bar, s.threads[i].pc.cp) {
      var n: nat :| n < |s.threads| && s.threads[n].pc.Notifying?;
      assert Enabled(s, Step(n));
    }
    if s.waiter == Sleeping && s.alive == 0 {
      var n: nat :| n < |s.threads| && s.threads[n].pc.LastOut?;
      assert Enabled(s, Step(n));
    }
  }

  /** No deadlock: in every reachable state either everything is finished or somebody can move
      without a spurious wake-up. */
  lemma NoDeadlock(run: seq<Sys>, acts: seq<Action>, k: nat)
    requires IsRun(run, acts) && k < |run|
    ensures Finished(run[k]) || CanMove(run[k])
  {
    Always(run, acts, k);
    var s := run[k];
    if !CanMove(s) {
      forall t: nat | t < |s.threads| ensures s.threads[t].pc.Asleep? || s.threads[t].pc.Done? {
        assert !Enabled(s, Step(t));
        assert ThreadOk(s.threads[t], t, s.bar, s.passed);
      }
      WaitingAmongLive(s.threads, s.bar.phase);
      assert forall t :: 0 <= t < |s.threads| ==> !s.threads[t].pc.Asleep?;
      NobodyUndecremented(s.threads);
    }
  }

  /** How many protocol steps a thread still has before it, if it never goes back to sleep. */
  function Potential(th: Thread): int {
    var left := if th.at <= |th.script| then |th.script| - th.at else 0;
    match th.pc
    case User => 3 * left + 4
    case Asleep(_) => 3 * left + 6
    case Awake(_) => 3 * left + 6
    case Notifying => 3 * left + 5
    case Merged => 3
    case Removed => 2
    case LastOut => 1
    case Done => 0
    case Aborted => 0
  }

  function AwakeTerm(th: Thread): int {
    OneIf(th.pc.Awake?)
  }

  function WaiterRank(w: Waiter): int {
    match w
    case Outside => 2
    case Holding => 1
    case Sleeping => 0
    case Returned => 0
  }

  function Rank(s: Sys): int {
    (|s.threads| + 2) * Sum(s.threads, Potential) + Sum(s.threads, AwakeTerm) + WaiterRank(s.waiter)
  }

  /** A thread's own step lowers its potential, or puts it back to sleep. */
  lemma PotentialFalls(s: Sys, t: nat)
    requires BarrierInv(s) && Enabled(s, Step(t))
    ensures var r := Apply(s, Step(t));
      && |r.threads| == |s.threads|
      && (r.threads == s.threads[t := r.threads[t]] || r.threads == WakeAll(s.threads)[t := r.threads[t]])
      && (Potential(r.threads[t]) < Potential(s.threads[t])
          || (Potential(r.threads[t]) == Potential(s.threads[t]) && r.threads == s.threads[t := r.threads[t]]
              && s.threads[t].pc.Awake? && r.threads[t].pc.Asleep?))
      && (WaiterRank(r.waiter) <= WaiterRank(s.waiter)
          || (WaiterRank(r.waiter) == 2 && r.threads == s.threads[t := r.threads[t]]
              && s.threads[t].pc.LastOut? && r.threads[t].pc.Done?))
  {
    assert ThreadOk(s.threads[t], t, s.bar, s.passed);
    WaitingAmongLive(s.threads, s.bar.phase);
  }

  /** What the step does to the two sums. */
  lemma SumsAfter(before: seq<Thread>, base: seq<Thread>, t: nat, x: Thread)
    requires t < |before| && (base == before || base == WakeAll(before))
    requires t < |base|
    ensures Sum(base[t := x], Potential) == Sum(before, Potential) - Potential(before[t]) + Potential(x)
  {
    if base == WakeAll(before) {
      WakingKeepsPotential(before);
    }
    SumUpdate(base, Potential, t, x);
  }

  lemma WakingKeepsPotential(threads: seq<Thread>)
    ensures var woken := WakeAll(threads);
      |woken| == |threads| && Sum(woken, Potential) == Sum(threads, Potential)
    ensures forall i :: 0 <= i < |threads| ==> Potential(WakeAll(threads)[i]) == Potential(threads[i])
  {
    SumPointwise(WakeAll(threads), Potential, threads, Potential);
  }

  lemma AwakeAfter(before: seq<Thread>, after: seq<Thread>, t: nat)
    requires t < |before| == |after|
    ensures 0 <= Sum(before, AwakeTerm) <= |before| && 0 <= Sum(after, AwakeTerm) <= |before|
    ensures after == before[t := after[t]] ==>
      Sum(after, AwakeTerm) == Sum(before, AwakeTerm) - AwakeTerm(before[t]) + AwakeTerm(after[t])
  {
    SumBounds(before, AwakeTerm, 0, 1);
    SumBounds(after, AwakeTerm, 0, 1);
    SumUpdate(before, AwakeTerm, t, after[t]);
  }

  lemma ThreadRankMoves(s: Sys, t: nat, r: Sys)
    requires BarrierInv(s) && Enabled(s, Step(t)) && r == Apply(s, Step(t))
    ensures Rank(r) < Rank(s)
  {
    PotentialFalls(s, t);
    var x := r.threads[t];
    SumsAfter(s.threads, if r.threads == s.threads[t := x] then s.threads else WakeAll(s.threads), t, x);
    AwakeAfter(s.threads, r.threads, t);
    if Potential(x) < Potential(s.threads[t]) {
      TimesLess(|s.threads| + 2, Sum(s.threads, Potential), Sum(r.threads, Potential));
    }
  }

  lemma RankMoves(s: Sys, a: Action, r: Sys)
    requires BarrierInv(s) && Enabled(s, a) && r == Apply(s, a)
    ensures if IsSpurious(a) then Rank(r) <= Rank(s) + 2 else Rank(r) < Rank(s)
  {
    match a
    case Step(t) => ThreadRankMoves(s, t, r);
    case SpuriousWake(t) =>
      SumUpdate(s.threads, Potential, t, r.threads[t]);
      SumUpdate(s.threads, AwakeTerm, t, r.threads[t]);
    case Main =>
    case SpuriousMain =>
  }

  function Spurious(acts: seq<Action>): nat {
    if acts == [] then 0
    else Spurious(acts[..|acts| - 1]) + (if IsSpurious(acts[|acts| - 1]) then 1 else 0)
  }

  lemma {:induction false} RankAlong(run: seq<Sys>, acts: seq<Action>, k: nat)
    requires IsRun(run, acts) && k <= |acts|
    ensures Spurious(acts[..k]) <= k
    ensures Rank(run[k]) + (k - Spurious(acts[..k])) <= Rank(run[0]) + 2 * Spurious(acts[..k])
  {
    if k > 0 {
      RankAlong(run, acts, k - 1);
      BarrierAlways(run, acts, k - 1);
      RankMoves(run[k - 1], acts[k - 1], run[k]);
      assert acts[..k][..k - 1] == acts[..k - 1];
    }
  }

  /** Termination: a run without spurious wake-ups has at most Rank(start) steps, and every
      spurious wake-up buys at most two more. */
  lemma RunsAreBounded(run: seq<Sys>, acts: seq<Action>)
    requires IsRun(run, acts)
    ensures |acts| - Spurious(acts) <= Rank(run[0]) + 2 * Spurious(acts)
  {
    var s := run[|acts|];
    RankAlong(run, acts, |acts|);
    assert acts[..|acts|] == acts;
    RankNonNegative(s);
  }

  lemma RankNonNegative(s: Sys)
    ensures Rank(s) >= 0
  {
    SumBounds(s.threads, AwakeTerm, 0, 1);
    NonNegative(s.threads, Potential);
  }

  lemma {:induction false} NonNegative(ths: seq<Thread>, f: Thread -> int)
    requires forall th :: f(th) >= 0
    ensures Sum(ths, f) >= 0
  {
    if ths != [] {
      NonNegative(ths[1..], f);
    }
  }

  // ---------------------------------------------------------------- completion

  function Iterations(th: Thread): int { th.contrib.iterations }

  function ComplexityOf(th: Thread): int { th.contrib.complexityN }

  function RealTime(th: Thread): real { th.contrib.realTime }

  function CpuTime(th: Thread): real { th.contrib.cpuTime }

  function ManualTime(th: Thread): real { th.contrib.manualTime }

  function CounterValue(name: string): Thread -> real {
    (th: Thread) => ValueOf(th.contrib.counters, name)
  }

  predicate SomeHas(ths: seq<Thread>, name: string) {
    exists i :: 0 <= i < |ths| && name in ths[i].contrib.counters
  }

  /** `c` is the sum of what all threads contribute, counters name by name. */
  ghost predicate AreTotals(c: Contribution, ths: seq<Thread>) {
    && c.iterations == Sum(ths, Iterations)
    && c.complexityN == Sum(ths, ComplexityOf)
    && c.realTime == SumReal(ths, RealTime)
    && c.cpuTime == SumReal(ths, CpuTime)
    && c.manualTime == SumReal(ths, ManualTime)
    && (forall name :: name in c.counters <==> SomeHas(ths, name))
    && (forall name :: ValueOf(c.counters, name) == SumReal(ths, CounterValue(name)))
  }

  /** WaitForAllThreads returns only when every thread has merged; the result is then the sum of
      all contributions, for any merge order, and the reported skip is the first one. */
  lemma WaitReturnsTheTotals(run: seq<Sys>, acts: seq<Action>, k: nat)
    requires IsRun(run, acts) && k < |run| && run[k].waiter == Returned
    ensures forall i :: 0 <= i < |run[k].threads| ==> HasMerged(run[k].threads[i])
    ensures AreTotals(run[k].results.sum, run[0].threads)
    ensures run[k].results.skip == FirstSkip(run[k].skips)
  {
    InvAlways(run, acts, k);
    HistoryAlways(run, acts, k);
    NobodyUndecremented(run[k].threads);
    TotalsOfAll(run[k].results.sum, run[k].threads, run[0].threads);
  }

  lemma TotalsOfAll(c: Contribution, now: seq<Thread>, ths: seq<Thread>)
    requires Conserved(c, now) && |now| == |ths|
    requires forall i :: 0 <= i < |ths| ==> HasMerged(now[i]) && now[i].contrib == ths[i].contrib
    ensures AreTotals(c, ths)
  {
    SumPointwise(now, PartIterations, ths, Iterations);
    SumPointwise(now, PartComplexityN, ths, ComplexityOf);
    SumRealSame(now, PartRealTime, ths, RealTime);
    SumRealSame(now, PartCpuTime, ths, CpuTime);
    SumRealSame(now, PartManualTime, ths, ManualTime);
    forall name ensures ValueOf(c.counters, name) == SumReal(ths, CounterValue(name)) {
      SumRealSame(now, PartCounter(name), ths, CounterValue(name));
    }
    forall name ensures name in c.counters <==> SomeHas(ths, name) {
      if i :| 0 <= i < |ths| && name in ths[i].contrib.counters {
        assert name in Part(now[i]).counters;
      }
    }
  }

  /** The iteration count DoNIterations reports is at least the requested one when every thread
      did what it was asked for. */
  lemma ReportedIterations(run: seq<Sys>, acts: seq<Action>, k: nat, requested: nat)
    requires IsRun(run, acts) && k < |run| && run[k].waiter == Returned
    requires forall i :: 0 <= i < |run[0].threads| ==> run[0].threads[i].contrib.iterations >= requested
    ensures run[k].results.sum.iterations / |run[0].threads| >= requested
  {
    WaitReturnsTheTotals(run, acts, k);
    AtLeast(run[0].threads, Iterations, requested);
    DivAtLeast(run[k].results.sum.iterations, |run[0].threads|, requested);
  }

  lemma {:induction false} AtLeast(ths: seq<Thread>, f: Thread -> int, lo: int)
    requires forall i :: 0 <= i < |ths| ==> f(ths[i]) >= lo
    ensures Sum(ths, f) >= |ths| * lo
  {
    if ths != [] {
      AtLeast(ths[1..], f, lo);
      assert |ths| * lo == lo + (|ths| - 1) * lo;
    }
  }
}
