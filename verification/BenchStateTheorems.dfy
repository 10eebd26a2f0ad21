/** What holds for every legal sequence of calls on a State: iteration accounting, timing slices
    and markers, and the order of barrier and timer calls that the start/stop protocol relies on. */
module BenchStateTheorems {
  import opened Sums
  import opened UserCounters
  import opened Scripts
  import opened BenchState

  predicate EverOn(log: seq<Event>) {
    exists i :: 0 <= i < |log| && log[i].On?
  }

  lemma LogStep(log: seq<Event>, e: Event)
    ensures var l := log + [e];
      && GrantedSum(l) == GrantedSum(log) + (if e.Granted? then e.n else 0)
      && LastGrant(l) == (if e.Granted? then e.n else LastGrant(log))
      && Barriers(l) == Barriers(log) + (if e.Barrier? then 1 else 0)
      && LastOn(l) == (if e.On? then e.now else LastOn(log))
      && Closed(l) == Closed(log) + (if e.Off? then [Start(LastOn(log).ts), End(e.now.ts)] else [])
      && SliceTime(l) == SliceTime(log)
           + (if e.Off? || (e.SkipAt? && e.stopped) then e.now.wall - LastOn(log).wall else 0.0)
      && CpuSlices(l) == CpuSlices(log)
           + (if e.Off? || (e.SkipAt? && e.stopped) then MaxReal(e.now.cpu - LastOn(log).cpu, 0.0) else 0.0)
      && (EverOn(l) <==> EverOn(log) || e.On?)
  {
    var l := log + [e];
    assert l[..|l| - 1] == log;
    assert l[|log|] == e;
    if i :| 0 <= i < |log| && log[i].On? {
      assert l[i].On?;
    }
  }

  lemma ScriptStep(log: seq<Event>, e: Event)
    ensures LocalAfter(Script(log + [e])) == After(LocalAfter(Script(log)), ToUserOp(e))
    ensures LegalPrefix(Script(log)) && LegalOp(LocalAfter(Script(log)), ToUserOp(e))
      ==> LegalPrefix(Script(log + [e]))
  {
    var ops := Script(log + [e]);
    assert ops == Script(log) + [ToUserOp(e)];
    assert forall i :: 0 <= i <= |log| ==> ops[..i] == Script(log)[..i];
    assert ops[..|log|] == Script(log);
  }

  // ---------------------------------------------------------------- the invariant

  /** The history is a legal script, and its local view is the State's own flags. */
  predicate ScriptOk(s: St) {
    var l := LocalAfter(Script(s.log));
    && LegalPrefix(Script(s.log))
    && l.skipped == Skipped(s) && l.timing == s.timer.running && l.waits == Barriers(s.log)
    && (if s.finished then l.waits >= 2 && (!Skipped(s) ==> l.waits == 2)
        else l.waits == if s.started then 1 else 0)
  }

  predicate Flags(s: St) {
    && s.max > 0 && s.total >= 0 && s.cached >= -1
    && (s.finished ==> s.started && s.total == 0)
    && (s.timer.running ==> s.started && !s.finished && !Skipped(s))
    && (!s.started ==> s.total == 0 && s.leftover == 0 && s.cached == -1 && s.resumeTs == 0)
  }

  /** The collect flag is the parity of the toggles. */
  predicate ParityOk(s: St, collecting0: bool) {
    if s.mode == Analysis then s.collecting == (collecting0 == (s.toggles % 2 == 0))
    else s.collecting == collecting0 && s.toggles == 0
  }

  lemma CollectKeepsParity(s: St, collecting0: bool, on: bool)
    requires ParityOk(s, collecting0)
    ensures ParityOk(Collect(s, on), collecting0)
  {
  }

  predicate TimingOk(s: St, collecting0: bool) {
    && s.timer.realUsed == SliceTime(s.log) && s.timer.cpuUsed == CpuSlices(s.log)
    && (s.timer.running ==> s.timer.startReal == LastOn(s.log).wall && s.timer.startCpu == LastOn(s.log).cpu)
    && (s.timer.running ==> EverOn(s.log) && LastOn(s.log).ts != 0)
    && s.markers == (if s.mode == Walltime && !s.warmup then Closed(s.log) else [])
    && (s.mode == Walltime && s.timer.running ==> s.resumeTs == LastOn(s.log).ts)
    && (s.mode == Walltime && !s.timer.running && !s.warmup && !Skipped(s) ==> s.resumeTs == 0)
    && (s.mode != Walltime ==> s.resumeTs == 0)
    && ParityOk(s, collecting0)
    && (s.mode == Analysis && EverOn(s.log) ==> s.collecting == s.timer.running)
  }

  predicate Inv(s: St, collecting0: bool) {
    Flags(s) && ScriptOk(s) && TimingOk(s, collecting0)
  }

  /** Appending one event that the State's flags allow keeps the history a legal script. */
  lemma ScriptKeeps(s: St, e: Event, r: St)
    requires ScriptOk(s) && (s.finished ==> s.started) && r.log == s.log + [e]
    requires LegalOp(LocalAfter(Script(s.log)), ToUserOp(e))
    requires Skipped(r) == (Skipped(s) || e.SkipAt?)
    requires r.timer.running == (e.On? || (s.timer.running && !e.Off? && !e.SkipAt?))
    requires if e.Barrier? then r.started && r.finished == s.started
             else r.started == s.started && r.finished == s.finished
    ensures ScriptOk(r)
  {
    ScriptStep(s.log, e);
    LogStep(s.log, e);
  }

  lemma PauseKeeps(s: St, c0: bool, now: Now)
    requires Inv(s, c0) && MayPause(s)
    ensures Inv(Pause(s, now), c0)
  {
    ScriptKeeps(s, Off(now), Pause(s, now));
    PauseTimes(s, c0, now);
  }

  lemma PauseTimes(s: St, c0: bool, now: Now)
    requires TimingOk(s, c0) && MayPause(s)
    ensures TimingOk(Pause(s, now), c0)
  {
    LogStep(s.log, Off(now));
  }

  lemma ResumeKeeps(s: St, c0: bool, now: Now)
    requires Inv(s, c0) && MayResume(s) && now.ts != 0
    ensures Inv(Resume(s, now), c0)
  {
    ScriptKeeps(s, On(now), Resume(s, now));
    ResumeTimes(s, c0, now);
  }

  lemma ResumeTimes(s: St, c0: bool, now: Now)
    requires TimingOk(s, c0) && MayResume(s) && now.ts != 0
    ensures TimingOk(Resume(s, now), c0)
  {
    LogStep(s.log, On(now));
    CollectKeepsParity(s, c0, true);
  }

  lemma SkipKeeps(s: St, c0: bool, skip: Skip, now: Now)
    requires Inv(s, c0) && skip != NotSkipped
    ensures Inv(SkipWithReason(s, skip, now), c0)
  {
    ScriptKeeps(s, SkipAt(skip, now, s.timer.running), SkipWithReason(s, skip, now));
    SkipTimes(s, c0, skip, now);
  }

  lemma SkipTimes(s: St, c0: bool, skip: Skip, now: Now)
    requires TimingOk(s, c0) && skip != NotSkipped
    ensures TimingOk(SkipWithReason(s, skip, now), c0)
  {
    LogStep(s.log, SkipAt(skip, now, s.timer.running));
  }

  lemma StartKeeps(s: St, c0: bool, now: Now, cached: int)
    requires Inv(s, c0) && !s.started && now.ts != 0 && cached >= -1
    ensures Inv(StartKeepRunning(s.(cached := cached), now), c0)
  {
    var s1 := s.(cached := cached, started := true, total := if Skipped(s) then 0 else s.max, log := s.log + [Barrier]);
    LogStep(s.log, Barrier);
    ScriptKeeps(s, Barrier, s1);
    if !Skipped(s) {
      ResumeKeeps(s1, c0, now);
    }
  }

  lemma FinishKeeps(s: St, c0: bool, now: Now)
    requires Inv(s, c0) && MayFinish(s)
    ensures Inv(FinishKeepRunning(s, now), c0)
  {
    if !Skipped(s) {
      PauseKeeps(s, c0, now);
    }
    var s1 := if Skipped(s) then s else Pause(s, now);
    LogStep(s1.log, Barrier);
    ScriptKeeps(s1, Barrier, FinishKeepRunning(s, now));
  }

  lemma GrantKeeps(s: St, c0: bool, total: int, leftover: int, cached: int, n: int)
    requires Inv(s, c0) && s.started && !s.finished && total >= 0 && cached >= -1
    ensures Inv(Grant(s.(leftover := leftover, cached := cached), total, n), c0)
  {
    LogStep(s.log, Granted(n));
    ScriptKeeps(s, Granted(n), Grant(s.(leftover := leftover, cached := cached), total, n));
  }

  lemma NextKeeps(s: St, c0: bool, at: Now)
    requires Inv(s, c0) && Legal(s, Next(at))
    ensures Inv(RangeNext(s, at).0, c0)
  {
    if s.cached == 0 {
      FinishKeeps(s, c0, at);
    } else {
      GrantKeeps(s, c0, s.total, s.leftover, s.cached - 1, 1);
    }
  }

  /** The part of KeepRunningInternal before anything is finished. */
  lemma KeepGrants(s: St, c0: bool, n: int, isBatch: bool)
    requires Inv(s, c0) && n > 0 && s.total > 0 && (s.total >= n || isBatch)
    ensures Inv(if s.total >= n then Grant(s, s.total - n, n) else Grant(s.(leftover := n - s.total), 0, n), c0)
  {
    if s.total >= n {
      GrantKeeps(s, c0, s.total - n, s.leftover, s.cached, n);
      assert s.(leftover := s.leftover, cached := s.cached) == s;
    } else {
      GrantKeeps(s, c0, 0, n - s.total, s.cached, n);
      assert s.(leftover := n - s.total, cached := s.cached) == s.(leftover := n - s.total);
    }
  }

  /** KeepRunning on a State that has not started yet starts it and goes on as usual. */
  lemma KeepAfterStart(s: St, n: int, isBatch: bool, at: Now)
    requires MayKeepRunning(s, n, isBatch) && !s.started && s.total < n
    ensures var s1 := StartKeepRunning(s, at);
      && s1.started && (Skipped(s1) ==> s1.total == 0)
      && KeepRunning(s, n, isBatch, at)
         == if s1.total >= n then (Grant(s1, s1.total - n, n), true)
            else if isBatch && s1.total != 0 then (Grant(s1.(leftover := n - s1.total), 0, n), true)
            else (FinishKeepRunning(s1, at), false)
  {
  }

  lemma KeepWithoutStart(s: St, n: int, isBatch: bool, at: Now)
    requires MayKeepRunning(s, n, isBatch) && (s.started || s.total >= n)
    ensures KeepRunning(s, n, isBatch, at)
         == if s.total >= n then (Grant(s, s.total - n, n), true)
            else if isBatch && s.total != 0 then (Grant(s.(leftover := n - s.total), 0, n), true)
            else (FinishKeepRunning(s, at), false)
  {
  }

  lemma KeepKeeps(s: St, c0: bool, n: int, isBatch: bool, at: Now)
    requires Inv(s, c0) && MayKeepRunning(s, n, isBatch) && at.ts != 0
    ensures Inv(KeepRunning(s, n, isBatch, at).0, c0)
  {
    if s.total < n && !s.started {
      KeepKeepsFromStart(s, c0, n, isBatch, at);
    } else {
      KeepWithoutStart(s, n, isBatch, at);
      KeepRest(s, c0, n, isBatch, at);
    }
  }

  lemma KeepKeepsFromStart(s: St, c0: bool, n: int, isBatch: bool, at: Now)
    requires Inv(s, c0) && MayKeepRunning(s, n, isBatch) && at.ts != 0 && s.total < n && !s.started
    ensures Inv(KeepRunning(s, n, isBatch, at).0, c0)
  {
    StartKeepsInv(s, c0, at);
    KeepAfterStart(s, n, isBatch, at);
    MayGoOn(s, n, isBatch, at);
    KeepRest(StartKeepRunning(s, at), c0, n, isBatch, at);
  }

  lemma StartKeepsInv(s: St, c0: bool, at: Now)
    requires Inv(s, c0) && !s.started && s.max > 0 && at.ts != 0
    ensures Inv(StartKeepRunning(s, at), c0)
  {
    assert s == s.(cached := -1);
    StartKeeps(s, c0, at, -1);
  }

  lemma MayGoOn(s: St, n: int, isBatch: bool, at: Now)
    requires MayKeepRunning(s, n, isBatch) && !s.started
    ensures StartKeepRunning(s, at).started && MayKeepRunning(StartKeepRunning(s, at), n, isBatch)
  {
  }

  /** The part of KeepRunningInternal after the start. */
  lemma KeepRest(s: St, c0: bool, n: int, isBatch: bool, at: Now)
    requires Inv(s, c0) && MayKeepRunning(s, n, isBatch) && at.ts != 0 && (s.started || s.total >= n)
    ensures Inv(if s.total >= n then Grant(s, s.total - n, n)
                else if isBatch && s.total != 0 then Grant(s.(leftover := n - s.total), 0, n)
                else FinishKeepRunning(s, at), c0)
  {
    if s.total >= n || (isBatch && s.total != 0) {
      KeepGrants(s, c0, n, isBatch);
    } else {
      FinishKeeps(s, c0, at);
    }
  }

  lemma OpKeeps(s: St, c0: bool, op: Op)
    requires Inv(s, c0) && Legal(s, op) && op.at.ts != 0
    ensures Inv(Do(s, op), c0)
  {
    match op
    case PauseOp(at) => PauseKeeps(s, c0, at);
    case ResumeOp(at) => ResumeKeeps(s, c0, at);
    case SkipOp(skip, at) => SkipKeeps(s, c0, skip, at);
    case Begin(at) => StartKeeps(s, c0, at, if Skipped(s) then 0 else s.max);
    case Next(at) => NextKeeps(s, c0, at);
    case Keep(n, isBatch, at) => KeepKeeps(s, c0, n, isBatch, at);
  }

  // ---------------------------------------------------------------- markers and clocks

  predicate NotLater(a: Now, b: Now) {
    a.ts <= b.ts && a.wall <= b.wall && a.cpu <= b.cpu
  }

  predicate MonotoneClock(ops: seq<Op>) {
    && (forall i :: 0 <= i < |ops| ==> ops[i].at.ts > 0)
    && (forall i, j :: 0 <= i <= j < |ops| ==> NotLater(ops[i].at, ops[j].at))
  }

  /** Start and End alternate, and no marker is earlier than the one before it: the intervals are
      disjoint, in order, and none ends before it starts. */
  predicate Alternating(m: seq<Marker>) {
    && |m| % 2 == 0
    && (forall i :: 0 <= i < |m| ==> (m[i].Start? <==> i % 2 == 0))
    && (forall i :: 0 <= i < |m| - 1 ==> m[i].ts <= m[i + 1].ts)
  }

  predicate Ordered(log: seq<Event>, running: bool, latest: Now) {
    var m := Closed(log);
    && Alternating(m)
    && (m != [] ==> m[|m| - 1].ts <= latest.ts)
    && (running ==> NotLater(LastOn(log), latest) && (m != [] ==> m[|m| - 1].ts <= LastOn(log).ts))
    && SliceTime(log) >= 0.0
  }

  lemma OrderStep(log: seq<Event>, running: bool, latest: Now, e: Event, now: Now, after: bool)
    requires Ordered(log, running, latest) && NotLater(latest, now)
    requires e.On? ==> e.now == now
    requires e.Off? ==> running && e.now == now
    requires e.SkipAt? ==> e.now == now && (e.stopped ==> running)
    requires after ==> e.On? || (running && !e.Off?)
    ensures Ordered(log + [e], after, now)
  {
    LogStep(log, e);
    if e.Off? {
      AlternatingMore(Closed(log), LastOn(log).ts, now.ts);
    }
  }

  lemma AlternatingMore(m: seq<Marker>, from: int, to: int)
    requires Alternating(m) && from <= to && (m != [] ==> m[|m| - 1].ts <= from)
    ensures Alternating(m + [Start(from), End(to)])
  {
    var all := m + [Start(from), End(to)];
    forall i | 0 <= i < |all| - 1 ensures all[i].ts <= all[i + 1].ts {
      assert i < |m| - 1 ==> all[i] == m[i] && all[i + 1] == m[i + 1];
    }
  }

  predicate StateOrdered(s: St, latest: Now) {
    Ordered(s.log, s.timer.running, latest)
  }

  lemma BarrierOrder(log: seq<Event>, latest: Now, now: Now)
    requires Ordered(log, false, latest) && NotLater(latest, now)
    ensures Ordered(log + [Barrier], false, now)
  {
    OrderStep(log, false, latest, Barrier, now, false);
  }

  lemma BarrierOnOrder(log: seq<Event>, latest: Now, now: Now)
    requires Ordered(log, false, latest) && NotLater(latest, now)
    ensures Ordered(log + [Barrier] + [On(now)], true, now)
  {
    OrderStep(log, false, latest, Barrier, now, false);
    OrderStep(log + [Barrier], false, now, On(now), now, true);
  }

  lemma OffBarrierOrder(log: seq<Event>, latest: Now, now: Now)
    requires Ordered(log, true, latest) && NotLater(latest, now)
    ensures Ordered(log + [Off(now)] + [Barrier], false, now)
  {
    OrderStep(log, true, latest, Off(now), now, false);
    OrderStep(log + [Off(now)], false, now, Barrier, now, false);
  }

  lemma StartLog(s: St, now: Now)
    requires !s.timer.running
    ensures var r := StartKeepRunning(s, now);
      && r.log == (if Skipped(s) then s.log + [Barrier] else s.log + [Barrier] + [On(now)])
      && (r.timer.running <==> !Skipped(s))
  {
  }

  lemma FinishLog(s: St, now: Now)
    requires MayFinish(s) && (Skipped(s) ==> !s.timer.running)
    ensures var r := FinishKeepRunning(s, now);
      && r.log == (if Skipped(s) then s.log + [Barrier] else s.log + [Off(now)] + [Barrier])
      && !r.timer.running && (!Skipped(s) ==> s.timer.running)
  {
  }

  lemma StartOrder(s: St, latest: Now, now: Now)
    requires StateOrdered(s, latest) && NotLater(latest, now) && !s.timer.running
    ensures StateOrdered(StartKeepRunning(s, now), now)
  {
    StartLog(s, now);
    BarrierOrder(s.log, latest, now);
    BarrierOnOrder(s.log, latest, now);
  }

  lemma FinishOrder(s: St, latest: Now, now: Now)
    requires StateOrdered(s, latest) && NotLater(latest, now) && MayFinish(s)
    requires Skipped(s) ==> !s.timer.running
    ensures StateOrdered(FinishKeepRunning(s, now), now)
  {
    FinishLog(s, now);
    if Skipped(s) {
      BarrierOrder(s.log, latest, now);
    } else {
      OffBarrierOrder(s.log, latest, now);
    }
  }

  lemma GrantOrder(s: St, latest: Now, now: Now, total: int, leftover: int, n: int)
    requires StateOrdered(s, latest) && NotLater(latest, now)
    ensures StateOrdered(Grant(s.(leftover := leftover), total, n), now)
  {
    OrderStep(s.log, s.timer.running, latest, Granted(n), now, s.timer.running);
  }

  lemma KeepOrder(s: St, n: int, isBatch: bool, now: Now, latest: Now)
    requires Flags(s) && MayKeepRunning(s, n, isBatch) && StateOrdered(s, latest) && NotLater(latest, now)
    ensures StateOrdered(KeepRunning(s, n, isBatch, now).0, now)
  {
    if s.total < n && !s.started {
      StartOrder(s, latest, now);
      KeepAfterStart(s, n, isBatch, now);
      KeepRestOrder(StartKeepRunning(s, now), n, isBatch, now, now);
    } else {
      KeepRestOrder(s, n, isBatch, now, latest);
    }
  }

  lemma KeepRestOrder(s: St, n: int, isBatch: bool, now: Now, latest: Now)
    requires StateOrdered(s, latest) && NotLater(latest, now)
    requires s.total < n && (!isBatch || s.total == 0) ==> MayFinish(s) && (Skipped(s) ==> !s.timer.running)
    ensures StateOrdered(if s.total >= n then Grant(s, s.total - n, n)
                         else if isBatch && s.total != 0 then Grant(s.(leftover := n - s.total), 0, n)
                         else FinishKeepRunning(s, now), now)
  {
    if s.total >= n {
      GrantOrder(s, latest, now, s.total - n, s.leftover, n);
      assert s.(leftover := s.leftover) == s;
    } else if isBatch && s.total != 0 {
      GrantOrder(s, latest, now, 0, n - s.total, n);
    } else {
      FinishOrder(s, latest, now);
    }
  }

  lemma OpOrder(s: St, op: Op, latest: Now)
    requires Flags(s) && Legal(s, op) && StateOrdered(s, latest) && NotLater(latest, op.at)
    ensures StateOrdered(Do(s, op), op.at)
  {
    match op
    case PauseOp(now) => PauseOrder(s, latest, now);
    case ResumeOp(now) => OrderStep(s.log, s.timer.running, latest, On(now), now, true);
    case SkipOp(skip, now) => SkipOrder(s, skip, latest, now);
    case Begin(now) => StartOrder(s.(cached := if Skipped(s) then 0 else s.max), latest, now);
    case Next(now) => NextOrder(s, latest, now);
    case Keep(n, isBatch, now) => KeepOrder(s, n, isBatch, now, latest);
  }

  lemma PauseOrder(s: St, latest: Now, now: Now)
    requires MayPause(s) && StateOrdered(s, latest) && NotLater(latest, now)
    ensures StateOrdered(Pause(s, now), now)
  {
    OrderStep(s.log, s.timer.running, latest, Off(now), now, false);
  }

  lemma SkipOrder(s: St, skip: Skip, latest: Now, now: Now)
    requires Flags(s) && Legal(s, SkipOp(skip, now)) && StateOrdered(s, latest) && NotLater(latest, now)
    ensures StateOrdered(Do(s, SkipOp(skip, now)), now)
  {
    OrderStep(s.log, s.timer.running, latest, SkipAt(skip, now, s.timer.running), now, false);
  }

  lemma NextOrder(s: St, latest: Now, now: Now)
    requires Flags(s) && Legal(s, Next(now)) && StateOrdered(s, latest) && NotLater(latest, now)
    ensures StateOrdered(RangeNext(s, now).0, now)
  {
    if s.cached != 0 {
      OrderStep(s.log, s.timer.running, latest, Granted(1), now, s.timer.running);
    } else {
      FinishOrder(s, latest, now);
    }
  }

  function ClockAt(ops: seq<Op>, k: nat): Now
    requires k <= |ops|
  {
    if k > 0 then ops[k - 1].at else if ops != [] then ops[0].at else Now(0, 0.0, 0.0)
  }

  predicate IsInit(s: St) {
    s.max > 0 && s == Init(s.max, s.warmup, s.mode, s.collecting)
  }

  predicate SameSetting(s: St, r: St) {
    r.max == s.max && r.mode == s.mode && r.warmup == s.warmup
  }

  lemma ExecStep(s0: St, ops: seq<Op>, k: nat)
    requires LegalRun(s0, ops) && k < |ops|
    ensures Legal(Exec(s0, ops[..k]), ops[k])
    ensures Exec(s0, ops[..k + 1]) == Do(Exec(s0, ops[..k]), ops[k])
    ensures SameSetting(Exec(s0, ops[..k]), Exec(s0, ops[..k + 1]))
  {
    assert ops[..k + 1][..k] == ops[..k];
    OpKeepsSetting(Exec(s0, ops[..k]), ops[k]);
  }

  lemma OpKeepsSetting(s: St, op: Op)
    requires Legal(s, op)
    ensures SameSetting(s, Do(s, op))
  {
    if op.Keep? {
      KeepKeepsSetting(s, op.n, op.isBatch, op.at);
    }
  }

  lemma KeepKeepsSetting(s: St, n: int, isBatch: bool, at: Now)
    requires MayKeepRunning(s, n, isBatch)
    ensures SameSetting(s, KeepRunning(s, n, isBatch, at).0)
  {
  }

  /** The invariant after k calls. */
  lemma {:induction false} RunKeeps(s0: St, ops: seq<Op>, k: nat)
    requires IsInit(s0) && LegalRun(s0, ops) && MonotoneClock(ops) && k <= |ops|
    ensures Inv(Exec(s0, ops[..k]), s0.collecting) && SameSetting(s0, Exec(s0, ops[..k]))
    ensures StateOrdered(Exec(s0, ops[..k]), ClockAt(ops, k))
  {
    if k > 0 {
      RunKeeps(s0, ops, k - 1);
      ExecStep(s0, ops, k - 1);
      OpKeeps(Exec(s0, ops[..k - 1]), s0.collecting, ops[k - 1]);
      OpOrder(Exec(s0, ops[..k - 1]), ops[k - 1], ClockAt(ops, k - 1));
    }
  }

  function PausesOf(log: seq<Event>): nat {
    if log == [] then 0 else PausesOf(log[..|log| - 1]) + (if log[|log| - 1].Off? then 1 else 0)
  }

  lemma {:induction false} ClosedLength(log: seq<Event>)
    ensures |Closed(log)| == 2 * PausesOf(log)
  {
    if log != [] {
      ClosedLength(log[..|log| - 1]);
    }
  }

  /** Timing slices, after any legal calls on a State with a monotone non-zero clock: the emitted
      markers are one ordered Start/End pair per pause, the accumulated times are the sums of the
      slices, the timer is off once the loop is left, and the collect flag follows the toggles and,
      from the first timer start on, the timer. */
  lemma TimingSlices(s0: St, ops: seq<Op>)
    requires IsInit(s0) && LegalRun(s0, ops) && MonotoneClock(ops)
    ensures var s := Exec(s0, ops);
      && (s0.mode == Walltime && !s0.warmup ==>
            s.markers == Closed(s.log) && Alternating(s.markers) && |s.markers| == 2 * PausesOf(s.log))
      && (s0.mode != Walltime || s0.warmup ==> s.markers == [])
      && s.timer.realUsed == SliceTime(s.log) >= 0.0 && s.timer.cpuUsed == CpuSlices(s.log)
      && (s.finished || Skipped(s) ==> !s.timer.running)
      && (s0.mode != Analysis ==> s.collecting == s0.collecting && s.toggles == 0)
      && (s0.mode == Analysis ==> s.collecting == (s0.collecting == (s.toggles % 2 == 0)))
      && (s0.mode == Analysis && EverOn(s.log) ==> s.collecting == s.timer.running)
  {
    RunKeeps(s0, ops, |ops|);
    assert ops[..|ops|] == ops;
    ClosedLength(Exec(s0, ops).log);
  }

  /** Whatever a benchmark function does with its State is a legal script of the start/stop
      protocol, and a complete one when the function may return. */
  lemma HistoryIsLegalScript(s0: St, ops: seq<Op>)
    requires IsInit(s0) && LegalRun(s0, ops) && MonotoneClock(ops)
    ensures var s := Exec(s0, ops);
      && LegalPrefix(Script(s.log))
      && (s.finished || Skipped(s) ==> LegalScript(Script(s.log)))
  {
    RunKeeps(s0, ops, |ops|);
    assert ops[..|ops|] == ops;
  }

  /** A paused timer can be resumed exactly when the State is not a warm-up State of a walltime
      build: such a State keeps its resume timestamp, and ResumeTiming aborts if its checks are compiled in. */
  lemma ResumeAfterPause(s0: St, ops: seq<Op>, now: Now, checked: bool)
    requires IsInit(s0) && LegalRun(s0, ops) && MonotoneClock(ops) && MayPause(Exec(s0, ops))
    ensures MayResume(Pause(Exec(s0, ops), now)) <==> !(s0.mode == Walltime && s0.warmup)
    ensures ResumeAborts(Pause(Exec(s0, ops), now), checked) <==> checked && s0.mode == Walltime && s0.warmup
  {
    RunKeeps(s0, ops, |ops|);
    assert ops[..|ops|] == ops;
  }

  /** Such a State exists: a warm-up whose loop has just begun aborts when it is paused and resumed. */
  lemma WarmupAborts(s0: St, ops: seq<Op>, now: Now)
    requires s0 == Init(5, true, Walltime, true) && ops == [Begin(Now(1, 0.0, 0.0))]
    ensures IsInit(s0) && LegalRun(s0, ops) && MonotoneClock(ops) && MayPause(Exec(s0, ops))
    ensures ResumeAborts(Pause(Exec(s0, ops), now), true)
  {
    assert ops[..0] == [] && ops[..|ops| - 1] == [];
    assert Exec(s0, []) == s0;
    assert Exec(s0, ops) == RangeBegin(s0, ops[0].at);
  }

  // ---------------------------------------------------------------- iteration accounting

  /** KeepRunning loops: what was granted is what iterations() says, and before the last grant it
      was less than asked for. */
  predicate KeepAccounts(s: St) {
    && !Skipped(s) && s.cached == -1 && s.total <= s.max && s.leftover >= 0
    && (s.leftover > 0 ==> s.total == 0)
    && GrantedSum(s.log) == Iterations(s)
    && GrantedSum(s.log) - LastGrant(s.log) < s.max
  }

  predicate KeepLoop(ops: seq<Op>) {
    forall i :: 0 <= i < |ops| ==> ops[i].Keep? || ops[i].PauseOp? || ops[i].ResumeOp?
  }

  lemma StartAccounts(s: St, now: Now)
    requires KeepAccounts(s) && !s.started && s.max > 0 && s.total == 0 && s.leftover == 0
    ensures KeepAccounts(StartKeepRunning(s, now)) && StartKeepRunning(s, now).total == s.max
  {
    LogStep(s.log, Barrier);
    LogStep(s.log + [Barrier], On(now));
    assert StartKeepRunning(s, now).log == s.log + [Barrier] + [On(now)];
  }

  lemma FinishAccounts(s: St, now: Now)
    requires KeepAccounts(s) && s.started && s.total == 0
    ensures KeepAccounts(FinishKeepRunning(s, now))
  {
    LogStep(s.log, Off(now));
    LogStep(s.log + [Off(now)], Barrier);
    assert FinishKeepRunning(s, now).log == s.log + [Off(now)] + [Barrier];
  }

  lemma GrantAccounts(s: St, n: int, isBatch: bool)
    requires KeepAccounts(s) && s.started && n > 0 && s.total > 0 && (s.total >= n || isBatch)
    ensures KeepAccounts(if s.total >= n then Grant(s, s.total - n, n) else Grant(s.(leftover := n - s.total), 0, n))
  {
    LogStep(s.log, Granted(n));
  }

  lemma KeepStep(s: St, n: int, isBatch: bool, now: Now)
    requires Flags(s) && KeepAccounts(s) && MayKeepRunning(s, n, isBatch)
    ensures KeepAccounts(KeepRunning(s, n, isBatch, now).0)
  {
    var s1 := s;
    if s.total < n && !s.started {
      StartAccounts(s, now);
      KeepAfterStart(s, n, isBatch, now);
      s1 := StartKeepRunning(s, now);
    }
    if s1.total >= n || (isBatch && s1.total != 0) {
      GrantAccounts(s1, n, isBatch);
    } else {
      FinishAccounts(s1, now);
    }
  }

  /** Pauses and resumes touch none of the counts. */
  predicate SameCounts(s: St, r: St, e: Event) {
    && r.total == s.total && r.leftover == s.leftover && r.cached == s.cached && r.max == s.max
    && r.started == s.started && r.finished == s.finished && r.log == s.log + [e] && !e.Granted? && !e.Barrier?
  }

  lemma QuietAccounts(s: St, r: St, e: Event)
    requires KeepAccounts(s) && SameCounts(s, r, e) && r.skip == s.skip
    ensures KeepAccounts(r)
  {
    LogStep(s.log, e);
  }

  lemma KeepLoopStep(s: St, op: Op)
    requires Flags(s) && KeepAccounts(s) && Legal(s, op) && (op.Keep? || op.PauseOp? || op.ResumeOp?)
    ensures KeepAccounts(Do(s, op))
  {
    match op
    case Keep(n, isBatch, at) => KeepStep(s, n, isBatch, at);
    case PauseOp(at) => QuietAccounts(s, Pause(s, at), Off(at));
    case ResumeOp(at) => QuietAccounts(s, Resume(s, at), On(at));
  }

  lemma {:induction false} KeepAccountsKept(s0: St, ops: seq<Op>, k: nat)
    requires IsInit(s0) && LegalRun(s0, ops) && MonotoneClock(ops) && KeepLoop(ops) && k <= |ops|
    ensures KeepAccounts(Exec(s0, ops[..k]))
  {
    if k > 0 {
      KeepAccountsKept(s0, ops, k - 1);
      RunKeeps(s0, ops, k - 1);
      ExecStep(s0, ops, k - 1);
      KeepLoopStep(Exec(s0, ops[..k - 1]), ops[k - 1]);
    }
  }

  /** Iteration accounting for any mix of KeepRunning and KeepRunningBatch calls with varying batch
      sizes: at any time iterations() is the sum of the batches granted; once the loop has ended that
      sum is at least max_iterations and exceeds it by less than the last batch, and the barrier has
      been crossed exactly twice. */
  lemma KeepRunningAccounting(s0: St, ops: seq<Op>)
    requires IsInit(s0) && LegalRun(s0, ops) && MonotoneClock(ops) && KeepLoop(ops)
    ensures var s := Exec(s0, ops);
      && Iterations(s) == GrantedSum(s.log)
      && (s.finished ==> s0.max <= GrantedSum(s.log) < s0.max + LastGrant(s.log) && Barriers(s.log) == 2)
  {
    KeepAccountsKept(s0, ops, |ops|);
    RunKeeps(s0, ops, |ops|);
    assert ops[..|ops|] == ops;
  }

  /** Ranged-for loops: granted and still cached passes add up to max_iterations. */
  predicate RangeAccounts(s: St) {
    && s.cached >= 0 && s.leftover == 0 && s.started
    && GrantedSum(s.log) + s.cached == s.max
    && (s.finished ==> s.cached == 0 && s.total == 0)
    && Barriers(s.log) == if s.finished then 2 else 1
  }

  predicate RangeLoop(ops: seq<Op>) {
    && ops != [] && ops[0].Begin?
    && forall i :: 1 <= i < |ops| ==> ops[i].Next? || ops[i].PauseOp? || ops[i].ResumeOp? || ops[i].SkipOp?
  }

  lemma RangeFinish(s: St, now: Now)
    requires RangeAccounts(s) && s.cached == 0 && !s.finished
    ensures RangeAccounts(FinishKeepRunning(s, now))
  {
    LogStep(s.log, Off(now));
    LogStep(s.log + [Off(now)], Barrier);
    LogStep(s.log, Barrier);
    assert FinishKeepRunning(s, now).log == if Skipped(s) then s.log + [Barrier] else s.log + [Off(now)] + [Barrier];
  }

  lemma RangeStart(s: St, now: Now)
    requires IsInit(s)
    ensures RangeAccounts(RangeBegin(s, now))
  {
    LogStep(s.log, Barrier);
    LogStep(s.log + [Barrier], On(now));
    assert RangeBegin(s, now).log == s.log + [Barrier] + [On(now)];
  }

  lemma QuietRange(s: St, r: St, e: Event)
    requires RangeAccounts(s) && SameCounts(s.(total := r.total), r, e) && (s.finished ==> r.total == 0)
    ensures RangeAccounts(r)
  {
    LogStep(s.log, e);
  }

  lemma RangeGrant(s: St, at: Now)
    requires RangeAccounts(s) && s.cached > 0
    ensures RangeAccounts(RangeNext(s, at).0)
  {
    LogStep(s.log, Granted(1));
  }

  lemma RangeStep(s: St, op: Op)
    requires RangeAccounts(s) && Legal(s, op) && (op.Next? || op.PauseOp? || op.ResumeOp? || op.SkipOp?)
    ensures RangeAccounts(Do(s, op))
  {
    match op
    case Next(at) =>
      if s.cached == 0 {
        RangeFinish(s, at);
      } else {
        RangeGrant(s, at);
      }
    case PauseOp(at) => QuietRange(s, Pause(s, at), Off(at));
    case ResumeOp(at) => QuietRange(s, Resume(s, at), On(at));
    case SkipOp(skip, at) => QuietRange(s, SkipWithReason(s, skip, at), SkipAt(skip, at, s.timer.running));
  }

  lemma {:induction false} RangeAccountsKept(s0: St, ops: seq<Op>, k: nat)
    requires IsInit(s0) && LegalRun(s0, ops) && RangeLoop(ops) && 1 <= k <= |ops|
    ensures RangeAccounts(Exec(s0, ops[..k]))
  {
    ExecStep(s0, ops, k - 1);
    if k == 1 {
      assert Exec(s0, ops[..0]) == s0;
      RangeStart(s0, ops[0].at);
    } else {
      RangeAccountsKept(s0, ops, k - 1);
      RangeStep(Exec(s0, ops[..k - 1]), ops[k - 1]);
    }
  }

  /** A ranged-for loop that is left grants exactly max_iterations passes, even when a skip in its
      body does not break out, crosses the barrier exactly twice, and iterations() agrees. */
  lemma RangedForAccounting(s0: St, ops: seq<Op>)
    requires IsInit(s0) && LegalRun(s0, ops) && RangeLoop(ops) && Exec(s0, ops).finished
    ensures var s := Exec(s0, ops);
      GrantedSum(s.log) == s0.max == Iterations(s) && Barriers(s.log) == 2
  {
    RangeAccountsKept(s0, ops, |ops|);
    assert ops[..|ops|] == ops;
    ExecKeepsSetting(s0, ops, |ops|);
  }

  lemma {:induction false} ExecKeepsSetting(s0: St, ops: seq<Op>, k: nat)
    requires LegalRun(s0, ops) && k <= |ops|
    ensures SameSetting(s0, Exec(s0, ops[..k]))
  {
    if k > 0 {
      ExecKeepsSetting(s0, ops, k - 1);
      ExecStep(s0, ops, k - 1);
    }
  }

  // ---------------------------------------------------------------- skipped States

  predicate NothingLeft(s: St) {
    Skipped(s) ==> s.total == 0
  }

  lemma StaysEmpty(s: St, op: Op)
    requires Legal(s, op) && NothingLeft(s)
    ensures NothingLeft(Do(s, op))
  {
    if op.Keep? {
      KeepStaysEmpty(s, op.n, op.isBatch, op.at);
    }
  }

  lemma KeepStaysEmpty(s: St, n: int, isBatch: bool, at: Now)
    requires MayKeepRunning(s, n, isBatch) && NothingLeft(s)
    ensures NothingLeft(KeepRunning(s, n, isBatch, at).0)
  {
    if !s.started && s.total < n {
      KeepAfterStart(s, n, isBatch, at);
    } else {
      KeepWithoutStart(s, n, isBatch, at);
    }
  }

  /** In every reachable state: a skipped State has no iterations left. */
  lemma {:induction false} SkippedHasNoneLeft(s0: St, ops: seq<Op>, k: nat)
    requires IsInit(s0) && LegalRun(s0, ops) && k <= |ops|
    ensures Skipped(Exec(s0, ops[..k])) ==> Exec(s0, ops[..k]).total == 0
  {
    if k > 0 {
      SkippedHasNoneLeft(s0, ops, k - 1);
      ExecStep(s0, ops, k - 1);
      var s := Exec(s0, ops[..k - 1]);
      assert NothingLeft(s);
      StaysEmpty(s, ops[k - 1]);
    }
  }

  lemma SkippedFinish(s: St, now: Now)
    requires Skipped(s)
    ensures var r := FinishKeepRunning(s, now);
      r.finished && GrantedSum(r.log) == GrantedSum(s.log) && Barriers(r.log) == Barriers(s.log) + 1
  {
    LogStep(s.log, Barrier);
  }

  lemma SkippedStart(s: St, now: Now)
    requires Skipped(s)
    ensures var r := StartKeepRunning(s, now);
      && Skipped(r) && r.total == 0 && r.started
      && GrantedSum(r.log) == GrantedSum(s.log) && Barriers(r.log) == Barriers(s.log) + 1
  {
    LogStep(s.log, Barrier);
  }

  lemma EmptyKeepEnds(s: St, n: int, isBatch: bool, at: Now)
    requires Skipped(s) && s.total == 0 && MayKeepRunning(s, n, isBatch)
    ensures var (r, more) := KeepRunning(s, n, isBatch, at);
      && !more && r.finished && GrantedSum(r.log) == GrantedSum(s.log)
      && Barriers(r.log) == Barriers(s.log) + (if s.started then 1 else 2)
  {
    if s.started {
      SkippedFinish(s, at);
    } else {
      SkippedStart(s, at);
      SkippedFinish(StartKeepRunning(s, at), at);
    }
  }

  /** On a skipped State KeepRunning grants nothing: it ends the loop, which it starts first if that was not
      done, and crosses the barrier for both. */
  lemma SkippedKeepEnds(s0: St, ops: seq<Op>, n: int, isBatch: bool, at: Now)
    requires IsInit(s0) && LegalRun(s0, ops) && Skipped(Exec(s0, ops))
    requires Legal(Exec(s0, ops), Keep(n, isBatch, at))
    ensures var s := Exec(s0, ops);
      var (r, more) := KeepRunning(s, n, isBatch, at);
      && !more && r.finished && GrantedSum(r.log) == GrantedSum(s.log)
      && Barriers(r.log) == Barriers(s.log) + (if s.started then 1 else 2)
  {
    SkippedHasNoneLeft(s0, ops, |ops|);
    assert ops[..|ops|] == ops;
    EmptyKeepEnds(Exec(s0, ops), n, isBatch, at);
  }

  /** A ranged-for loop over a State that is already skipped makes no pass and crosses the barrier twice. */
  lemma SkippedRangeEnds(s: St, begin: Now, end: Now)
    requires Skipped(s) && Legal(s, Begin(begin))
    ensures var s1 := RangeBegin(s, begin);
      && Legal(s1, Next(end))
      && var (r, more) := RangeNext(s1, end);
      && !more && r.finished && GrantedSum(r.log) == GrantedSum(s.log) && Barriers(r.log) == Barriers(s.log) + 2
  {
    SkippedStart(s.(cached := 0), begin);
    SkippedFinish(RangeBegin(s, begin), end);
  }

  lemma QuietGrants(s: St, r: St, e: Event)
    requires r.log == s.log + [e] && !e.Granted?
    ensures GrantedSum(r.log) == GrantedSum(s.log)
  {
    LogStep(s.log, e);
  }

  lemma SkippedGrantsNothing(s: St, op: Op)
    requires Skipped(s) && s.total == 0 && Legal(s, op) && !op.Next?
    ensures GrantedSum(Do(s, op).log) == GrantedSum(s.log) && Skipped(Do(s, op))
  {
    match op
    case Keep(n, isBatch, at) => EmptyKeepEnds(s, n, isBatch, at);
    case Begin(at) => SkippedStart(s.(cached := 0), at);
    case SkipOp(skip, at) => QuietGrants(s, SkipWithReason(s, skip, at), SkipAt(skip, at, s.timer.running));
  }

  lemma SkipGrantsNothing(s: St, op: Op)
    requires op.SkipOp? && Legal(s, op)
    ensures var r := Do(s, op);
      r.skip == op.skip && Skipped(r) && GrantedSum(r.log) == GrantedSum(s.log)
  {
    QuietGrants(s, Do(s, op), SkipAt(op.skip, op.at, s.timer.running));
  }

  predicate NoMoreGranted(s: St, r: St) {
    Skipped(r) && GrantedSum(r.log) == GrantedSum(s.log)
  }

  lemma StillNoMoreGranted(before: St, s0: St, ops: seq<Op>, k: nat)
    requires IsInit(s0) && LegalRun(s0, ops) && k < |ops| && !ops[k].Next?
    requires NoMoreGranted(before, Exec(s0, ops[..k]))
    ensures NoMoreGranted(before, Exec(s0, ops[..k + 1]))
  {
    SkippedHasNoneLeft(s0, ops, k);
    ExecStep(s0, ops, k);
    SkippedGrantsNothing(Exec(s0, ops[..k]), ops[k]);
  }

  lemma SkipWasExecuted(s0: St, ops: seq<Op>, i: nat)
    requires LegalRun(s0, ops) && i < |ops| && ops[i].SkipOp?
    ensures Exec(s0, ops[..i + 1]).skip == ops[i].skip
    ensures NoMoreGranted(Exec(s0, ops[..i]), Exec(s0, ops[..i + 1]))
  {
    ExecStep(s0, ops, i);
    SkipGrantsNothing(Exec(s0, ops[..i]), ops[i]);
  }

  lemma {:induction false} NothingGrantedFrom(before: St, s0: St, ops: seq<Op>, i: nat, k: nat)
    requires IsInit(s0) && LegalRun(s0, ops) && i <= k <= |ops|
    requires forall j :: i <= j < |ops| ==> !ops[j].Next?
    requires NoMoreGranted(before, Exec(s0, ops[..i]))
    ensures NoMoreGranted(before, Exec(s0, ops[..k]))
    decreases k
  {
    if i < k {
      NothingGrantedFrom(before, s0, ops, i, k - 1);
      StillNoMoreGranted(before, s0, ops, k - 1);
    }
  }

  /** Whatever is called after a skip, other than the passes of a ranged-for loop, grants no iteration. */
  lemma NothingAfterSkip(s0: St, ops: seq<Op>, i: nat, k: nat)
    requires IsInit(s0) && LegalRun(s0, ops) && i < k <= |ops| && ops[i].SkipOp?
    requires forall j :: i < j < |ops| ==> !ops[j].Next?
    ensures NoMoreGranted(Exec(s0, ops[..i]), Exec(s0, ops[..k]))
  {
    SkipWasExecuted(s0, ops, i);
    NothingGrantedFrom(Exec(s0, ops[..i]), s0, ops, i + 1, k);
  }

  /** In every reachable state a legal kind of KeepRunning call passes all checks, except when it would end a
      loop that is over already, or one whose timer is paused. */
  lemma KeepIsLegalExactlyWhen(s0: St, ops: seq<Op>, n: int, isBatch: bool, at: Now)
    requires IsInit(s0) && LegalRun(s0, ops) && MonotoneClock(ops)
    requires n > 0 && (isBatch || n == 1) && Exec(s0, ops).cached == -1
    ensures var s := Exec(s0, ops);
      Legal(s, Keep(n, isBatch, at)) <==>
        || !s.started || Skipped(s) || s.total >= n || (isBatch && s.total > 0)
        || (!s.finished && s.timer.running)
  {
    RunKeeps(s0, ops, |ops|);
    assert ops[..|ops|] == ops;
  }
}
