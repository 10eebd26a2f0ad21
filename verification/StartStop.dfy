/** The protocol that runs one benchmark on N threads: RunInThread, ThreadManager and Barrier
    (google_benchmark/src/benchmark_runner.cc, thread_manager.h, mutex.h).

    Each region under a lock is one step. Sleeping on a condition, being woken, and notify_all
    outside the lock are steps of their own; spurious wake-ups may happen at any time. */
module StartStop {
  import opened Sums
  import opened PhaseBarrier
  import opened UserCounters
  import opened Scripts

  /** Where a thread is. `User` is code of the benchmark function; `Notifying` has left the lock
      as last thread but has not called notify_all yet; `LastOut` has brought alive_threads_ to 0
      but has not locked end_cond_mutex_ yet. */
  datatype Pc = User | Asleep(cp: int) | Awake(cp: int) | Notifying | Merged | Removed | LastOut | Done | Aborted

  /** A thread: its whole script, how much of it has run, what its finished wait() calls returned. */
  datatype Thread = Thread(pc: Pc, at: nat, script: seq<UserOp>, got: seq<bool>, contrib: Contribution)

  /** The main thread after its own RunInThread: outside end_cond_mutex_, holding it with the
      predicate found false, asleep on end_condition_, or returned from WaitForAllThreads. */
  datatype Waiter = Outside | Holding | Sleeping | Returned

  /** `passed[k]` is the thread whose wait() returned true for phase k and `skips` lists the
      reported skips in time order; no step reads either, they only record the history. */
  datatype Sys = Sys(bar: Bar, threads: seq<Thread>, alive: int, waiter: Waiter, results: Totals,
                     passed: seq<nat>, skips: seq<Skip>)

  datatype Action = Step(t: nat) | SpuriousWake(t: nat) | Main | SpuriousMain

  // ---------------------------------------------------------------- the step relation

  function Wake(th: Thread): Thread {
    if th.pc.Asleep? then th.(pc := Awake(th.pc.cp)) else th
  }

  function WakeAll(ths: seq<Thread>): (r: seq<Thread>)
    ensures |r| == |ths| && forall i :: 0 <= i < |ths| ==> r[i] == Wake(ths[i])
  {
    seq(|ths|, i requires 0 <= i < |ths| => Wake(ths[i]))
  }

  /** Applies the outcome of a locked region of wait() to thread t. */
  function Settle(s: Sys, t: nat, th: Thread, r: (Bar, Outcome)): Sys
    requires t < |s.threads|
  {
    match r.1
    case Waits(cp) => s.(bar := r.0, threads := s.threads[t := th.(pc := Asleep(cp))])
    case ReturnsFalse => s.(bar := r.0, threads := s.threads[t := th.(pc := User, got := th.got + [false])])
    case ReturnsTrue => s.(bar := r.0, threads := s.threads[t := th.(pc := Notifying)], passed := s.passed + [t])
    case CheckFailed => s.(threads := s.threads[t := th.(pc := Aborted)])
  }

  function RunUser(s: Sys, t: nat): Sys
    requires t < |s.threads| && s.threads[t].pc.User?
  {
    var th := s.threads[t];
    var next := th.(at := th.at + 1);
    if th.at >= |th.script| then
      s.(threads := s.threads[t := th.(pc := Merged)],
         results := s.results.(sum := Add(s.results.sum, th.contrib)))
    else
      match th.script[th.at]
      case Wait => Settle(s, t, next, Enter(s.bar))
      case SkipWith(skip) =>
        s.(threads := s.threads[t := next], skips := s.skips + [skip],
           results := s.results.(skip := if s.results.skip == NotSkipped then skip else s.results.skip))
      case _ => s.(threads := s.threads[t := next])
  }

  function Notify(s: Sys, t: nat): Sys
    requires t < |s.threads|
  {
    var th := s.threads[t];
    s.(threads := WakeAll(s.threads)[t := th.(pc := User, got := th.got + [true])])
  }

  function Leave(s: Sys, t: nat): Sys
    requires t < |s.threads|
  {
    var (bar, notify) := Remove(s.bar);
    var ths := if notify then WakeAll(s.threads) else s.threads;
    s.(bar := bar, threads := ths[t := s.threads[t].(pc := Removed)])
  }

  function Decrement(s: Sys, t: nat): Sys
    requires t < |s.threads|
  {
    var pc := if s.alive - 1 == 0 then LastOut else Done;
    s.(alive := s.alive - 1, threads := s.threads[t := s.threads[t].(pc := pc)])
  }

  function NotifyEnd(s: Sys, t: nat): Sys
    requires t < |s.threads|
  {
    s.(waiter := if s.waiter == Sleeping then Outside else s.waiter,
       threads := s.threads[t := s.threads[t].(pc := Done)])
  }

  predicate Enabled(s: Sys, a: Action) {
    match a
    case Step(t) =>
      && t < |s.threads|
      && !s.threads[t].pc.Done? && !s.threads[t].pc.Asleep? && !s.threads[t].pc.Aborted?
      && (s.threads[t].pc.LastOut? ==> s.waiter != Holding)
    case SpuriousWake(t) => t < |s.threads| && s.threads[t].pc.Asleep?
    case Main => |s.threads| > 0 && (s.waiter == Holding || (s.waiter == Outside && s.threads[0].pc.Done?))
    case SpuriousMain => s.waiter == Sleeping
  }

  function Apply(s: Sys, a: Action): Sys
    requires Enabled(s, a)
  {
    match a
    case Step(t) => (
      match s.threads[t].pc
      case User => RunUser(s, t)
      case Awake(cp) => Settle(s, t, s.threads[t], Recheck(s.bar, cp))
      case Notifying => Notify(s, t)
      case Merged => Leave(s, t)
      case Removed => Decrement(s, t)
      case LastOut => NotifyEnd(s, t))
    case SpuriousWake(t) => s.(threads := s.threads[t := Wake(s.threads[t])])
    case Main =>
      if s.waiter == Holding then s.(waiter := Sleeping)
      else if s.alive == 0 then s.(waiter := Returned)
      else s.(waiter := Holding)
    case SpuriousMain => s.(waiter := Outside)
  }

  predicate Fresh(th: Thread) {
    th.pc == User && th.at == 0 && th.got == []
  }

  predicate Init(s: Sys) {
    && |s.threads| >= 1
    && (forall i :: 0 <= i < |s.threads| ==> Fresh(s.threads[i]))
    && s.bar == Bar(|s.threads|, 0, 0) && s.alive == |s.threads| && s.waiter == Outside
    && s.results == Totals(EMPTY, NotSkipped) && s.passed == [] && s.skips == []
  }

  /** A run: its states and the actions between them. */
  ghost predicate IsRun(run: seq<Sys>, acts: seq<Action>) {
    && |run| == |acts| + 1
    && Init(run[0])
    && forall i :: 0 <= i < |acts| ==> Enabled(run[i], acts[i]) && run[i + 1] == Apply(run[i], acts[i])
  }

  // ---------------------------------------------------------------- the invariant

  /** How many wait() calls the thread has made so far. */
  function Entries(th: Thread): nat {
    if th.at <= |th.script| then WaitCount(th.script[..th.at]) else 0
  }

  predicate Live(th: Thread) {
    th.pc.User? || InWait(th) || th.pc.Notifying? || th.pc.Merged? || th.pc.Aborted?
  }

  predicate InWait(th: Thread) {
    th.pc.Asleep? || th.pc.Awake?
  }

  predicate WaitsIn(th: Thread, phase: int) {
    InWait(th) && th.pc.cp == phase
  }

  predicate Undecremented(th: Thread) {
    Live(th) || th.pc.Removed?
  }

  predicate HasMerged(th: Thread) {
    th.pc.Merged? || th.pc.Removed? || th.pc.LastOut? || th.pc.Done?
  }

  function OneIf(b: bool): int {
    if b then 1 else 0
  }

  function CountLive(ths: seq<Thread>): int {
    Sum(ths, LiveTerm)
  }

  function LiveTerm(th: Thread): int {
    OneIf(Live(th))
  }

  function CountWaiting(ths: seq<Thread>, phase: int): int {
    Sum(ths, WaitTerm(phase))
  }

  function WaitTerm(phase: int): Thread -> int {
    (th: Thread) => OneIf(WaitsIn(th, phase))
  }

  function CountUndecremented(ths: seq<Thread>): int {
    Sum(ths, UndecrementedTerm)
  }

  function UndecrementedTerm(th: Thread): int {
    OneIf(Undecremented(th))
  }

  /** The answers a thread has got agree with the record of who passed each phase. */
  predicate AnswersAgree(got: seq<bool>, t: nat, passed: seq<nat>) {
    |got| <= |passed| && forall k :: 0 <= k < |got| ==> (got[k] <==> passed[k] == t)
  }

  /** Lockstep: a live thread has entered the barrier once per finished phase, plus once if it
      waits in the current phase; a waiter is at most one phase behind. */
  predicate ThreadOk(th: Thread, t: nat, bar: Bar, passed: seq<nat>) {
    && th.at <= |th.script|
    && !th.pc.Aborted?
    && (!th.pc.User? && !InWait(th) && !th.pc.Notifying? ==> th.at == |th.script|)
    && |th.got| == Entries(th) - (if InWait(th) || th.pc.Notifying? then 1 else 0)
    && (InWait(th) ==> Entries(th) == th.pc.cp + 1 && bar.phase - 1 <= th.pc.cp <= bar.phase)
    && (Live(th) && !InWait(th) ==> Entries(th) == bar.phase)
    && (!Live(th) ==> Entries(th) <= bar.phase)
    && AnswersAgree(th.got, t, passed)
    && (th.pc.Notifying? ==> |passed| == bar.phase && bar.phase > 0 && passed[bar.phase - 1] == t)
    && (InWait(th) && th.pc.cp < bar.phase ==> |passed| == bar.phase && passed[bar.phase - 1] != t)
  }

  predicate SomeNotifier(ths: seq<Thread>) {
    exists i :: 0 <= i < |ths| && ths[i].pc.Notifying?
  }

  /** No lost wake-up at the barrier: a sleeper whose predicate holds has a notify_all coming. */
  predicate NoLostWakeup(s: Sys) {
    forall i :: 0 <= i < |s.threads| && s.threads[i].pc.Asleep? && MayProceed(s.bar, s.threads[i].pc.cp)
      ==> s.threads[i].pc.cp < s.bar.phase && SomeNotifier(s.threads)
  }

  predicate BarrierInv(s: Sys) {
    && |s.threads| >= 1
    && |s.passed| == s.bar.phase
    && s.bar.running == CountLive(s.threads)
    && s.bar.entered == CountWaiting(s.threads, s.bar.phase)
    && (forall i :: 0 <= i < |s.threads| ==> ThreadOk(s.threads[i], i, s.bar, s.passed))
    && NoLostWakeup(s)
  }

  predicate SomeLastOut(ths: seq<Thread>) {
    exists i :: 0 <= i < |ths| && ths[i].pc.LastOut?
  }

  predicate EndInv(s: Sys) {
    && |s.threads| >= 1
    && s.alive == CountUndecremented(s.threads)
    && ((s.waiter == Holding || s.waiter == Sleeping) && s.alive == 0 ==> SomeLastOut(s.threads))
    && (s.waiter != Outside ==> s.threads[0].pc.Done?)
    && (s.waiter == Returned ==> s.alive == 0)
    && (SomeLastOut(s.threads) ==> s.alive == 0)
  }

  function Part(th: Thread): Contribution {
    if HasMerged(th) then th.contrib else EMPTY
  }

  function PartIterations(th: Thread): int { Part(th).iterations }

  function PartComplexityN(th: Thread): int { Part(th).complexityN }

  function PartRealTime(th: Thread): real { Part(th).realTime }

  function PartCpuTime(th: Thread): real { Part(th).cpuTime }

  function PartManualTime(th: Thread): real { Part(th).manualTime }

  function PartCounter(name: string): Thread -> real {
    (th: Thread) => ValueOf(Part(th).counters, name)
  }

  predicate SomePartHas(ths: seq<Thread>, name: string) {
    exists i :: 0 <= i < |ths| && name in Part(ths[i]).counters
  }

  /** The merged result is the sum of the contributions merged so far, whatever their order. */
  ghost predicate Conserved(c: Contribution, ths: seq<Thread>) {
    && c.iterations == Sum(ths, PartIterations)
    && c.complexityN == Sum(ths, PartComplexityN)
    && c.realTime == SumReal(ths, PartRealTime)
    && c.cpuTime == SumReal(ths, PartCpuTime)
    && c.manualTime == SumReal(ths, PartManualTime)
    && (forall name :: name in c.counters <==> SomePartHas(ths, name))
    && (forall name :: ValueOf(c.counters, name) == SumReal(ths, PartCounter(name)))
  }

  predicate FirstSkipKept(s: Sys) {
    s.results.skip == FirstSkip(s.skips)
  }

  /** The first entry that reports a skip. */
  function FirstSkip(skips: seq<Skip>): Skip {
    if skips == [] then NotSkipped
    else if skips[0] != NotSkipped then skips[0]
    else FirstSkip(skips[1..])
  }

  ghost predicate Inv(s: Sys) {
    BarrierInv(s) && EndInv(s) && Conserved(s.results.sum, s.threads) && FirstSkipKept(s)
  }
}
