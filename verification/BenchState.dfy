/** The State object that drives one benchmark loop on one thread, and its timer
    (google_benchmark/include/benchmark/benchmark.h, google_benchmark/src/benchmark.cc,
    google_benchmark/src/thread_timer.h, core/include/measurement.hpp). */
module BenchState {
  import opened Sums
  import opened UserCounters
  import opened Scripts

  /** How the library was built: neither macro, CODSPEED_WALLTIME or CODSPEED_ANALYSIS. */
  datatype Mode = Plain | Walltime | Analysis

  /** One reading of the instrumentation clock, the real-time clock and the CPU clock. */
  datatype Now = Now(ts: int, wall: real, cpu: real)

  datatype Timer = Timer(running: bool, startReal: real, startCpu: real, realUsed: real, cpuUsed: real)

  datatype Marker = Start(ts: int) | End(ts: int)

  /** History of a State, read by no operation: barrier calls, timer starts and stops, skips,
      and the iterations granted to the benchmark loop. */
  datatype Event = Barrier | On(now: Now) | Off(now: Now) | SkipAt(skip: Skip, now: Now, stopped: bool) | Granted(n: int)

  /** `cached` is the counter of the iterator over the State, -1 while there is none. */
  datatype St = St(max: int, total: int, leftover: int, cached: int, started: bool, finished: bool,
                   skip: Skip, warmup: bool, mode: Mode, resumeTs: int, timer: Timer,
                   markers: seq<Marker>, collecting: bool, toggles: nat, log: seq<Event>)

  function StartTimer(t: Timer, now: Now): Timer {
    t.(running := true, startReal := now.wall, startCpu := now.cpu)
  }

  function StopTimer(t: Timer, now: Now): Timer {
    t.(running := false, realUsed := t.realUsed + (now.wall - t.startReal),
       cpuUsed := t.cpuUsed + MaxReal(now.cpu - t.startCpu, 0.0))
  }

  /** measurement_pause_timing and measurement_resume_timing: toggle only when that changes something. */
  function Collect(s: St, on: bool): St {
    if s.mode == Analysis && s.collecting != on then s.(collecting := on, toggles := s.toggles + 1) else s
  }

  predicate Skipped(s: St) {
    s.skip != NotSkipped
  }

  // ---------------------------------------------------------------- operations on values

  /** The checks at the head of PauseTiming and ResumeTiming. */
  predicate MayPause(s: St) {
    s.started && !s.finished && !Skipped(s) && s.timer.running
  }

  predicate MayResume(s: St) {
    s.started && !s.finished && !Skipped(s) && !s.timer.running && (s.mode == Walltime ==> s.resumeTs == 0)
  }

  /** The checks of ResumeTiming, which only exist in a build without NDEBUG. */
  predicate ResumeAborts(s: St, checked: bool) {
    checked && !(s.started && !s.finished && !Skipped(s) && (s.mode == Walltime ==> s.resumeTs == 0))
  }

  function Pause(s: St, now: Now): St {
    var s1 := Collect(s, false).(timer := StopTimer(s.timer, now), log := s.log + [Off(now)]);
    if s.mode == Walltime && !s.warmup && s.resumeTs != 0 then
      s1.(markers := s.markers + [Start(s.resumeTs), End(now.ts)], resumeTs := 0)
    else s1
  }

  function Resume(s: St, now: Now): St {
    var s1 := Collect(s, true).(timer := StartTimer(s.timer, now), log := s.log + [On(now)]);
    if s.mode == Walltime then s1.(resumeTs := now.ts) else s1
  }

  function SkipWithReason(s: St, skip: Skip, now: Now): St {
    var s1 := s.(skip := skip, total := 0, log := s.log + [SkipAt(skip, now, s.timer.running)]);
    if s.timer.running then Collect(s1.(timer := StopTimer(s.timer, now)), false) else s1
  }

  function StartKeepRunning(s: St, now: Now): St {
    var s1 := s.(started := true, total := if Skipped(s) then 0 else s.max, log := s.log + [Barrier]);
    if Skipped(s) then s1 else Resume(s1, now)
  }

  predicate MayFinish(s: St) {
    s.started && (!s.finished || Skipped(s)) && (!Skipped(s) ==> s.timer.running)
  }

  function FinishKeepRunning(s: St, now: Now): St {
    var s1 := if Skipped(s) then s else Pause(s, now);
    s1.(total := 0, finished := true, log := s1.log + [Barrier])
  }

  function Grant(s: St, total: int, n: int): St {
    s.(total := total, log := s.log + [Granted(n)])
  }

  /** KeepRunning is n == 1 without is_batch, KeepRunningBatch is any n > 0 with it. */
  function KeepRunning(s: St, n: int, isBatch: bool, now: Now): (St, bool) {
    if s.total >= n then (Grant(s, s.total - n, n), true)
    else
      var s1 := if s.started then s else StartKeepRunning(s, now);
      if !s.started && !Skipped(s1) && s1.total >= n then (Grant(s1, s1.total - n, n), true)
      else if isBatch && s1.total != 0 then (Grant(s1.(leftover := n - s1.total), 0, n), true)
      else (FinishKeepRunning(s1, now), false)
  }

  /** `auto _ : state` evaluates begin() and then end(). */
  function RangeBegin(s: St, now: Now): St {
    StartKeepRunning(s.(cached := if Skipped(s) then 0 else s.max), now)
  }

  /** The comparison before each pass of a ranged-for loop, with the increment that follows the pass. */
  function RangeNext(s: St, now: Now): (St, bool) {
    if s.cached != 0 then (s.(cached := s.cached - 1, log := s.log + [Granted(1)]), true)
    else (FinishKeepRunning(s, now), false)
  }

  function Iterations(s: St): int {
    if !s.started then 0 else s.max - s.total + s.leftover
  }

  function Init(max: int, warmup: bool, mode: Mode, collecting: bool): St {
    St(max, 0, 0, -1, false, false, NotSkipped, warmup, mode, 0, Timer(false, 0.0, 0.0, 0.0, 0.0), [], collecting, 0, [])
  }

  // ---------------------------------------------------------------- the objects

  class ThreadTimer {
    var running: bool
    var startRealTime: real
    var startCpuTime: real
    var realTimeUsed: real
    var cpuTimeUsed: real

    function Value(): Timer
      reads this
    {
      Timer(running, startRealTime, startCpuTime, realTimeUsed, cpuTimeUsed)
    }

    constructor ()
      ensures Value() == Timer(false, 0.0, 0.0, 0.0, 0.0)
    {
      running, startRealTime, startCpuTime, realTimeUsed, cpuTimeUsed := false, 0.0, 0.0, 0.0, 0.0;
    }

    method Start(now: Now)
      modifies this
      ensures Value() == StartTimer(old(Value()), now)
    {
      running, startRealTime, startCpuTime := true, now.wall, now.cpu;
    }

    method Stop(now: Now)
      requires running
      modifies this
      ensures Value() == StopTimer(old(Value()), now)
    {
      running := false;
      realTimeUsed := realTimeUsed + (now.wall - startRealTime);
      cpuTimeUsed := cpuTimeUsed + MaxReal(now.cpu - startCpuTime, 0.0);
    }
  }

  class State {
    const maxIterations: int
    const isWarmup: bool
    const mode: Mode
    const timer: ThreadTimer
    const results: Results
    var totalIterations: int
    var batchLeftover: int
    var started: bool
    var finished: bool
    var skipped: Skip
    var resumeTimestamp: int
    var markers: seq<Marker>
    var collecting: bool
    var toggles: nat
    ghost var log: seq<Event>

    /** The State without an iterator over it. */
    ghost function Value(): St
      reads this, timer
    {
      St(maxIterations, totalIterations, batchLeftover, -1, started, finished, skipped, isWarmup, mode,
         resumeTimestamp, timer.Value(), markers, collecting, toggles, log)
    }

    constructor (maxIterations: int, isWarmup: bool, mode: Mode, collecting: bool, timer: ThreadTimer, results: Results)
      requires maxIterations != 0 && timer.Value() == Timer(false, 0.0, 0.0, 0.0, 0.0)
      ensures Value() == Init(maxIterations, isWarmup, mode, collecting)
      ensures this.timer == timer && this.results == results
    {
      this.maxIterations, this.isWarmup, this.mode := maxIterations, isWarmup, mode;
      this.timer, this.results, this.collecting := timer, results, collecting;
      totalIterations, batchLeftover, started, finished := 0, 0, false, false;
      skipped, resumeTimestamp, markers, toggles, log := NotSkipped, 0, [], 0, [];
    }

    method MeasurementPauseTiming()
      modifies this`collecting, this`toggles
      ensures Value() == Collect(old(Value()), false)
    {
      if mode == Analysis && collecting {
        toggles := toggles + 1;
        collecting := false;
      }
    }

    method MeasurementResumeTiming()
      modifies this`collecting, this`toggles
      ensures Value() == Collect(old(Value()), true)
    {
      if mode == Analysis && !collecting {
        toggles := toggles + 1;
        collecting := true;
      }
    }

    method PauseTiming(now: Now)
      requires MayPause(Value())
      modifies this, timer
      ensures Value() == Pause(old(Value()), now)
    {
      MeasurementPauseTiming();
      timer.Stop(now);
      if mode == Walltime && !isWarmup && resumeTimestamp != 0 {
        markers := markers + [Marker.Start(resumeTimestamp), End(now.ts)];
        resumeTimestamp := 0;
      }
      log := log + [Off(now)];
    }

    method ResumeTiming(now: Now)
      requires MayResume(Value())
      modifies this, timer
      ensures Value() == Resume(old(Value()), now)
    {
      timer.Start(now);
      if mode == Walltime {
        resumeTimestamp := now.ts;
      }
      MeasurementResumeTiming();
      log := log + [On(now)];
    }

    /** SkipWithMessage and SkipWithError, told apart by the constructor of `reason`. */
    method Skip(reason: Skip, now: Now)
      requires reason != NotSkipped
      modifies this, timer, results
      ensures Value() == SkipWithReason(old(Value()), reason, now) && totalIterations == 0 && !timer.running
      ensures results.Value() == old(results.Value()).(
        skip := if old(results.skipped) == NotSkipped then reason else old(results.skipped))
    {
      ghost var wasRunning := timer.running;
      skipped := reason;
      results.RecordSkip(reason);
      totalIterations := 0;
      if timer.running {
        timer.Stop(now);
        MeasurementPauseTiming();
      }
      log := log + [SkipAt(reason, now, wasRunning)];
    }

    /** The call of StartStopBarrier is recorded; the protocol behind it is in StartStop. */
    method Start(now: Now)
      requires !started && !finished && !timer.running && resumeTimestamp == 0
      modifies this, timer
      ensures Value() == StartKeepRunning(old(Value()), now)
    {
      started := true;
      totalIterations := if skipped != NotSkipped then 0 else maxIterations;
      log := log + [Barrier];
      if skipped == NotSkipped {
        ResumeTiming(now);
      }
    }

    method Finish(now: Now)
      requires MayFinish(Value())
      modifies this, timer
      ensures Value() == FinishKeepRunning(old(Value()), now)
    {
      if skipped == NotSkipped {
        PauseTiming(now);
      }
      totalIterations := 0;
      finished := true;
      log := log + [Barrier];
    }

    method KeepRunningInternal(n: int, isBatch: bool, now: Now) returns (more: bool)
      requires MayKeepRunning(Value(), n, isBatch)
      modifies this, timer
      ensures (Value(), more) == KeepRunning(old(Value()), n, isBatch, now)
    {
      if totalIterations >= n {
        totalIterations := totalIterations - n;
        log := log + [Granted(n)];
        return true;
      }
      if !started {
        Start(now);
        if skipped == NotSkipped && totalIterations >= n {
          totalIterations := totalIterations - n;
          log := log + [Granted(n)];
          return true;
        }
      }
      if isBatch && totalIterations != 0 {
        batchLeftover := n - totalIterations;
        totalIterations := 0;
        log := log + [Granted(n)];
        return true;
      }
      Finish(now);
      return false;
    }
  }

  /** The iterator of a ranged-for loop over a State. */
  class StateIterator {
    const parent: State
    var cached: int

    /** The State together with this iterator over it. */
    ghost function Value(): St
      reads this, parent, parent.timer
    {
      parent.Value().(cached := cached)
    }

    constructor (st: State)
      ensures parent == st && cached == if Skipped(st.Value()) then 0 else st.maxIterations
    {
      parent := st;
      cached := if st.skipped != NotSkipped then 0 else st.maxIterations;
    }

    /** operator++ */
    method Increment()
      requires cached > 0
      modifies this
      ensures cached == old(cached) - 1
    {
      cached := cached - 1;
    }

    /** operator!=, which ends the loop when there is nothing left. A granted pass is recorded. */
    method NotEqual(now: Now) returns (more: bool)
      requires cached == 0 ==> MayFinish(Value())
      modifies parent, parent.timer
      ensures more <==> cached != 0
      ensures Value() == if more then old(Value()).(log := old(Value()).log + [Granted(1)])
                         else FinishKeepRunning(old(Value()), now)
    {
      if cached != 0 {
        parent.log := parent.log + [Granted(1)];
        return true;
      }
      parent.Finish(now);
      more := false;
    }
  }

  /** begin() and then end(), which starts the loop. */
  method BeginRange(st: State, now: Now) returns (it: StateIterator)
    requires Legal(st.Value(), Begin(now))
    modifies st, st.timer
    ensures fresh(it) && it.parent == st && it.Value() == RangeBegin(old(st.Value()), now)
  {
    it := new StateIterator(st);
    st.Start(now);
  }

  /** The comparison before a pass, and the increment after a pass that leaves the iterator alone. */
  method NextPass(it: StateIterator, now: Now) returns (more: bool)
    requires it.cached >= 0 && (it.cached == 0 ==> MayFinish(it.Value()))
    modifies it, it.parent, it.parent.timer
    ensures (it.Value(), more) == RangeNext(old(it.Value()), now)
  {
    more := it.NotEqual(now);
    if more {
      it.Increment();
    }
  }

  /** What the body of a pass does to the State does not depend on the iterator, so it does not matter that
      RangeNext counts the increment before the body. */
  lemma BodyIgnoresIterator(s: St, op: Op, cached: int)
    requires op.PauseOp? || op.ResumeOp? || op.SkipOp?
    ensures Legal(s.(cached := cached), op) <==> Legal(s, op)
    ensures Do(s.(cached := cached), op) == Do(s, op).(cached := cached)
  {
    match op
    case PauseOp(at) => PauseIgnoresIterator(s, at, cached);
    case ResumeOp(at) => ResumeIgnoresIterator(s, at, cached);
    case SkipOp(skip, at) => SkipIgnoresIterator(s, skip, at, cached);
  }

  lemma PauseIgnoresIterator(s: St, at: Now, cached: int)
    ensures Pause(s.(cached := cached), at) == Pause(s, at).(cached := cached)
  {
  }

  lemma ResumeIgnoresIterator(s: St, at: Now, cached: int)
    ensures Resume(s.(cached := cached), at) == Resume(s, at).(cached := cached)
  {
  }

  lemma SkipIgnoresIterator(s: St, skip: Skip, at: Now, cached: int)
    ensures SkipWithReason(s.(cached := cached), skip, at) == SkipWithReason(s, skip, at).(cached := cached)
  {
  }

  /** The asserts of KeepRunningInternal and the checks of the calls it makes. */
  predicate MayKeepRunning(s: St, n: int, isBatch: bool) {
    && n > 0 && (isBatch || n == 1) && s.cached == -1
    && (!s.started ==> !s.finished && !s.timer.running && s.resumeTs == 0 && s.max > 0)
    && (s.started && s.total < n && !(isBatch && s.total != 0) ==> MayFinish(s))
  }

  // ---------------------------------------------------------------- sequences of calls

  datatype Op = Keep(n: int, isBatch: bool, at: Now) | Begin(at: Now) | Next(at: Now)
              | PauseOp(at: Now) | ResumeOp(at: Now) | SkipOp(skip: Skip, at: Now)

  predicate Legal(s: St, op: Op) {
    match op
    case Keep(n, isBatch, _) => MayKeepRunning(s, n, isBatch)
    case Begin(_) => !s.started && !s.finished && !s.timer.running && s.resumeTs == 0 && s.max > 0
    case Next(_) => s.started && !s.finished && s.cached >= 0 && (s.cached == 0 ==> MayFinish(s))
    case PauseOp(_) => MayPause(s)
    case ResumeOp(_) => MayResume(s)
    case SkipOp(skip, _) => skip != NotSkipped
  }

  function Do(s: St, op: Op): St {
    match op
    case Keep(n, isBatch, at) => KeepRunning(s, n, isBatch, at).0
    case Begin(at) => RangeBegin(s, at)
    case Next(at) => RangeNext(s, at).0
    case PauseOp(at) => Pause(s, at)
    case ResumeOp(at) => Resume(s, at)
    case SkipOp(skip, at) => SkipWithReason(s, skip, at)
  }

  function Exec(s: St, ops: seq<Op>): St {
    if ops == [] then s else Do(Exec(s, ops[..|ops| - 1]), ops[|ops| - 1])
  }

  predicate LegalRun(s: St, ops: seq<Op>) {
    forall i :: 0 <= i < |ops| ==> Legal(Exec(s, ops[..i]), ops[i])
  }

  // ---------------------------------------------------------------- what the history says

  function GrantedSum(log: seq<Event>): int {
    if log == [] then 0
    else GrantedSum(log[..|log| - 1]) + (if log[|log| - 1].Granted? then log[|log| - 1].n else 0)
  }

  function LastGrant(log: seq<Event>): int {
    if log == [] then 0
    else if log[|log| - 1].Granted? then log[|log| - 1].n
    else LastGrant(log[..|log| - 1])
  }

  function Barriers(log: seq<Event>): nat {
    if log == [] then 0
    else Barriers(log[..|log| - 1]) + (if log[|log| - 1].Barrier? then 1 else 0)
  }

  /** The reading of the last timer start. */
  function LastOn(log: seq<Event>): Now {
    if log == [] then Now(0, 0.0, 0.0)
    else if log[|log| - 1].On? then log[|log| - 1].now
    else LastOn(log[..|log| - 1])
  }

  /** One Start/End pair for each timer start that a pause closed. */
  function Closed(log: seq<Event>): seq<Marker> {
    if log == [] then []
    else
      var init := log[..|log| - 1];
      if log[|log| - 1].Off? then Closed(init) + [Start(LastOn(init).ts), End(log[|log| - 1].now.ts)]
      else Closed(init)
  }

  /** The real time of all timer slices, whether a pause or a skip ended them. */
  function SliceTime(log: seq<Event>): real {
    if log == [] then 0.0
    else
      var init, e := log[..|log| - 1], log[|log| - 1];
      SliceTime(init) + (if e.Off? || (e.SkipAt? && e.stopped) then e.now.wall - LastOn(init).wall else 0.0)
  }

  /** The CPU time of all timer slices; a slice whose clock went back counts nothing. */
  function CpuSlices(log: seq<Event>): real {
    if log == [] then 0.0
    else
      var init, e := log[..|log| - 1], log[|log| - 1];
      var slice := if e.Off? || (e.SkipAt? && e.stopped) then e.now.cpu - LastOn(init).cpu else 0.0;
      CpuSlices(init) + (if slice > 0.0 then slice else 0.0)
  }

  function ToUserOp(e: Event): UserOp {
    match e
    case Barrier => Wait
    case On(_) => TimerOn
    case Off(_) => TimerOff
    case SkipAt(skip, _, _) => SkipWith(skip)
    case Granted(_) => Iterate
  }

  /** The history as the start/stop protocol sees it. */
  function Script(log: seq<Event>): (r: seq<UserOp>)
    ensures |r| == |log| && forall i :: 0 <= i < |log| ==> r[i] == ToUserOp(log[i])
  {
    seq(|log|, i requires 0 <= i < |log| => ToUserOp(log[i]))
  }
}
