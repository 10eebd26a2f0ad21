/** Every step of the protocol keeps the invariant of StartStop. */
module StartStopInvariant {
  import opened Sums
  import opened PhaseBarrier
  import opened UserCounters
  import opened Scripts
  import opened StartStop

  // ---------------------------------------------------------------- counting

  lemma CountsUpdate(ths: seq<Thread>, t: nat, x: Thread, phase: int)
    requires t < |ths|
    ensures CountLive(ths[t := x]) == CountLive(ths) - OneIf(Live(ths[t])) + OneIf(Live(x))
    ensures CountWaiting(ths[t := x], phase)
         == CountWaiting(ths, phase) - OneIf(WaitsIn(ths[t], phase)) + OneIf(WaitsIn(x, phase))
    ensures CountUndecremented(ths[t := x])
         == CountUndecremented(ths) - OneIf(Undecremented(ths[t])) + OneIf(Undecremented(x))
  {
    SumUpdate(ths, LiveTerm, t, x);
    SumUpdate(ths, WaitTerm(phase), t, x);
    SumUpdate(ths, UndecrementedTerm, t, x);
  }

  lemma CountsWake(ths: seq<Thread>, phase: int)
    ensures CountLive(WakeAll(ths)) == CountLive(ths)
    ensures CountWaiting(WakeAll(ths), phase) == CountWaiting(ths, phase)
    ensures CountUndecremented(WakeAll(ths)) == CountUndecremented(ths)
  {
    SumPointwise(WakeAll(ths), LiveTerm, ths, LiveTerm);
    SumPointwise(WakeAll(ths), WaitTerm(phase), ths, WaitTerm(phase));
    SumPointwise(WakeAll(ths), UndecrementedTerm, ths, UndecrementedTerm);
  }

  /** No more threads wait than are live, and if all live threads wait then each of them does. */
  lemma WaitingAmongLive(ths: seq<Thread>, phase: int)
    ensures CountWaiting(ths, phase) <= CountLive(ths)
    ensures CountWaiting(ths, phase) == CountLive(ths) <==>
            forall i :: 0 <= i < |ths| && Live(ths[i]) ==> WaitsIn(ths[i], phase)
  {
    SumPointwise(ths, WaitTerm(phase), ths, LiveTerm);
  }

  lemma {:induction false} NobodyWaits(ths: seq<Thread>, phase: int)
    ensures CountWaiting(ths, phase) >= 0
    ensures CountWaiting(ths, phase) == 0 <==> forall i :: 0 <= i < |ths| ==> !WaitsIn(ths[i], phase)
  {
    if ths != [] {
      NobodyWaits(ths[1..], phase);
      if i :| 0 <= i < |ths| && WaitsIn(ths[i], phase) {
        assert i > 0 ==> ths[1..][i - 1] == ths[i];
      }
    }
  }

  lemma {:induction false} NobodyUndecremented(ths: seq<Thread>)
    ensures CountUndecremented(ths) >= 0
    ensures CountUndecremented(ths) == 0 <==> forall i :: 0 <= i < |ths| ==> !Undecremented(ths[i])
  {
    if ths != [] {
      NobodyUndecremented(ths[1..]);
      if i :| 0 <= i < |ths| && Undecremented(ths[i]) {
        assert i > 0 ==> ths[1..][i - 1] == ths[i];
      }
    }
  }

  lemma WaitsStep(th: Thread)
    requires th.at < |th.script|
    ensures Entries(th.(at := th.at + 1)) == Entries(th) + (if th.script[th.at] == Wait then 1 else 0)
  {
    var ops := th.script[..th.at + 1];
    assert ops[..|ops| - 1] == th.script[..th.at];
  }

  // ---------------------------------------------------------------- the barrier

  /** The caller enters as a waiter: somebody else is still missing. */
  lemma EnterSleeps(s: Sys, t: nat)
    requires BarrierInv(s) && t < |s.threads| && s.threads[t].pc.User?
    requires s.threads[t].at < |s.threads[t].script| && s.threads[t].script[s.threads[t].at] == Wait
    requires Enter(s.bar).1.Waits?
    ensures BarrierInv(RunUser(s, t))
  {
    var th := s.threads[t];
    var x := th.(at := th.at + 1, pc := Asleep(s.bar.phase));
    var r := RunUser(s, t);
    assert r.threads == s.threads[t := x] && r.bar == s.bar.(entered := s.bar.entered + 1) && r.passed == s.passed;
    CountsUpdate(s.threads, t, x, s.bar.phase);
    KeepsNotifier(s, r, t);
    forall i | 0 <= i < |r.threads| ensures ThreadOk(r.threads[i], i, r.bar, r.passed) {
      assert ThreadOk(s.threads[i], i, s.bar, s.passed);
      if i == t {
        WaitsStep(th);
      }
    }
  }

  /** A notifier other than t stays one when only t changes. */
  lemma KeepsNotifier(s: Sys, r: Sys, t: nat)
    requires t < |s.threads| == |r.threads| && !s.threads[t].pc.Notifying?
    requires forall i :: 0 <= i < |s.threads| && i != t ==> r.threads[i] == s.threads[i]
    ensures SomeNotifier(s.threads) ==> SomeNotifier(r.threads)
  {
    if i :| 0 <= i < |s.threads| && s.threads[i].pc.Notifying? {
      assert r.threads[i] == s.threads[i];
    }
  }

  /** The last thread passes: `ths` has t inside wait() together with every other live thread. */
  lemma LastPasses(s: Sys, t: nat, ths: seq<Thread>, r: Sys)
    requires BarrierInv(s) && t < |s.threads| == |ths|
    requires forall i :: 0 <= i < |ths| && i != t ==> ths[i] == s.threads[i]
    requires CountLive(ths) == CountWaiting(ths, s.bar.phase) == s.bar.running
    requires WaitsIn(ths[t], s.bar.phase) && Entries(ths[t]) == s.bar.phase + 1
    requires ths[t].at <= |ths[t].script| && |ths[t].got| == s.bar.phase
    requires AnswersAgree(ths[t].got, t, s.passed)
    requires r.threads == ths[t := ths[t].(pc := Notifying)] && r.passed == s.passed + [t]
    requires r.bar == Bar(s.bar.running, s.bar.phase + 1, 0)
    ensures BarrierInv(r)
  {
    var phase := s.bar.phase;
    WaitingAmongLive(ths, phase);
    CountsUpdate(ths, t, r.threads[t], phase + 1);
    forall i | 0 <= i < |ths| ensures !WaitsIn(r.threads[i], phase + 1) {
      if i != t {
        assert r.threads[i] == s.threads[i] == ths[i];
      }
    }
    NobodyWaits(r.threads, phase + 1);
    forall i | 0 <= i < |r.threads| ensures ThreadOk(r.threads[i], i, r.bar, r.passed) {
      if i != t {
        assert r.threads[i] == s.threads[i] == ths[i];
        assert ThreadOk(s.threads[i], i, s.bar, s.passed);
        assert AnswersAgree(s.threads[i].got, i, r.passed);
      }
    }
    assert r.threads[t].pc.Notifying?;
  }

  lemma WaitKeeps(s: Sys, t: nat)
    requires BarrierInv(s) && t < |s.threads| && s.threads[t].pc.User?
    requires s.threads[t].at < |s.threads[t].script| && s.threads[t].script[s.threads[t].at] == Wait
    ensures BarrierInv(RunUser(s, t)) && Enter(s.bar).1 != CheckFailed
  {
    var th := s.threads[t];
    var phase := s.bar.phase;
    var x := th.(at := th.at + 1, pc := Asleep(phase));
    var ths := s.threads[t := x];
    WaitsStep(th);
    CountsUpdate(s.threads, t, x, phase);
    WaitingAmongLive(ths, phase);
    WaitingAmongLive(s.threads, phase);
    if Enter(s.bar).1.Waits? {
      EnterSleeps(s, t);
    } else {
      LastPasses(s, t, ths, RunUser(s, t));
    }
  }

  lemma RecheckKeeps(s: Sys, t: nat)
    requires BarrierInv(s) && t < |s.threads| && s.threads[t].pc.Awake?
    ensures BarrierInv(Apply(s, Step(t)))
  {
    var th := s.threads[t];
    var cp := th.pc.cp;
    var r := Apply(s, Step(t));
    CountsUpdate(s.threads, t, r.threads[t], s.bar.phase);
    WaitingAmongLive(s.threads, s.bar.phase);
    KeepsNotifier(s, r, t);
    if MayProceed(s.bar, cp) && s.bar.phase == cp {
      LastPasses(s, t, s.threads, r);
    }
  }

  lemma NotifyKeeps(s: Sys, t: nat)
    requires BarrierInv(s) && t < |s.threads| && s.threads[t].pc.Notifying?
    ensures BarrierInv(Notify(s, t))
  {
    var r := Notify(s, t);
    CountsWake(s.threads, s.bar.phase);
    CountsUpdate(WakeAll(s.threads), t, r.threads[t], s.bar.phase);
    forall i | 0 <= i < |r.threads| ensures ThreadOk(r.threads[i], i, r.bar, r.passed) {
      assert ThreadOk(s.threads[i], i, s.bar, s.passed);
    }
  }

  /** After a removal nobody sleeps if anybody had entered; otherwise only old phases sleep. */
  lemma LeaveWakes(s: Sys, t: nat)
    requires BarrierInv(s) && t < |s.threads| && s.threads[t].pc.Merged?
    ensures NoLostWakeup(Leave(s, t))
  {
    var r := Leave(s, t);
    if s.bar.entered == 0 {
      NobodyWaits(s.threads, s.bar.phase);
      KeepsNotifier(s, r, t);
      forall i | 0 <= i < |r.threads| && r.threads[i].pc.Asleep?
        ensures r.threads[i].pc.cp < r.bar.phase && SomeNotifier(r.threads)
      {
        assert r.threads[i] == s.threads[i] && ThreadOk(s.threads[i], i, s.bar, s.passed);
        assert !WaitsIn(s.threads[i], s.bar.phase);
      }
    } else {
      assert forall i :: 0 <= i < |r.threads| ==> !r.threads[i].pc.Asleep?;
    }
  }

  lemma LeaveCounts(s: Sys, t: nat)
    requires BarrierInv(s) && t < |s.threads| && s.threads[t].pc.Merged?
    ensures var r := Leave(s, t);
      r.bar.running == CountLive(r.threads) && r.bar.entered == CountWaiting(r.threads, r.bar.phase)
  {
    var r := Leave(s, t);
    var ths := if s.bar.entered != 0 then WakeAll(s.threads) else s.threads;
    CountsWake(s.threads, s.bar.phase);
    CountsUpdate(ths, t, r.threads[t], s.bar.phase);
  }

  lemma LeaveKeeps(s: Sys, t: nat)
    requires BarrierInv(s) && t < |s.threads| && s.threads[t].pc.Merged?
    ensures BarrierInv(Leave(s, t))
  {
    var r := Leave(s, t);
    LeaveCounts(s, t);
    forall i | 0 <= i < |r.threads| ensures ThreadOk(r.threads[i], i, r.bar, r.passed) {
      assert ThreadOk(s.threads[i], i, s.bar, s.passed);
      assert Entries(r.threads[i]) == Entries(s.threads[i]);
    }
    LeaveWakes(s, t);
  }

  /** A step that changes only thread t, and neither the barrier nor t's standing with it. */
  lemma OtherStepKeeps(s: Sys, t: nat, x: Thread, r: Sys)
    requires BarrierInv(s) && t < |s.threads| && r.threads == s.threads[t := x]
    requires r.bar == s.bar && r.passed == s.passed
    requires ThreadOk(x, t, s.bar, s.passed)
    requires Live(x) == Live(s.threads[t]) && (InWait(x) || InWait(s.threads[t]) ==> x == Wake(s.threads[t]))
    requires !s.threads[t].pc.Notifying?
    ensures BarrierInv(r)
  {
    CountsUpdate(s.threads, t, x, s.bar.phase);
    KeepsNotifier(s, r, t);
  }

  lemma BarrierKept(s: Sys, a: Action)
    requires BarrierInv(s) && Enabled(s, a)
    ensures BarrierInv(Apply(s, a))
  {
    var r := Apply(s, a);
    match a
    case Main =>
    case SpuriousMain =>
    case SpuriousWake(t) =>
      OtherStepKeeps(s, t, r.threads[t], r);
    case Step(t) =>
      var th := s.threads[t];
      match th.pc {
        case Awake(_) => RecheckKeeps(s, t);
        case Notifying => NotifyKeeps(s, t);
        case Merged => LeaveKeeps(s, t);
        case Removed => OtherStepKeeps(s, t, r.threads[t], r);
        case LastOut => OtherStepKeeps(s, t, r.threads[t], r);
        case User =>
          if th.at < |th.script| && th.script[th.at] == Wait {
            WaitKeeps(s, t);
          } else {
            if th.at < |th.script| {
              WaitsStep(th);
            }
            OtherStepKeeps(s, t, r.threads[t], r);
          }
      }
  }

  // ---------------------------------------------------------------- the end condition

  lemma KeepsLastOut(s: Sys, r: Sys)
    requires |s.threads| == |r.threads|
    requires forall i :: 0 <= i < |s.threads| ==> (s.threads[i].pc.LastOut? <==> r.threads[i].pc.LastOut?)
    ensures SomeLastOut(s.threads) <==> SomeLastOut(r.threads)
  {
    if i :| 0 <= i < |s.threads| && s.threads[i].pc.LastOut? {
      assert r.threads[i].pc.LastOut?;
    }
  }

  /** Steps that leave alive_threads_, the waiter and everybody's share in them alone. */
  lemma EndUntouched(s: Sys, r: Sys)
    requires EndInv(s) && r.alive == s.alive && r.waiter == s.waiter && |r.threads| == |s.threads|
    requires forall i :: 0 <= i < |s.threads| ==>
      && Undecremented(r.threads[i]) == Undecremented(s.threads[i])
      && r.threads[i].pc.LastOut? == s.threads[i].pc.LastOut?
      && r.threads[i].pc.Done? == s.threads[i].pc.Done?
    ensures EndInv(r)
  {
    SumPointwise(s.threads, UndecrementedTerm, r.threads, UndecrementedTerm);
    KeepsLastOut(s, r);
  }

  lemma EndKept(s: Sys, a: Action)
    requires EndInv(s) && Enabled(s, a)
    ensures EndInv(Apply(s, a))
  {
    match a
    case Main => NobodyUndecremented(s.threads);
    case SpuriousMain =>
    case SpuriousWake(t) => EndUntouched(s, Apply(s, a));
    case Step(t) =>
      if s.threads[t].pc.Removed? {
        DecrementKeepsEnd(s, t);
      } else if s.threads[t].pc.LastOut? {
        NotifyEndKeepsEnd(s, t);
      } else {
        OtherStepKeepsEnd(s, t);
      }
  }

  /** Steps before the decrement have nothing to do with the end condition. */
  lemma OtherStepKeepsEnd(s: Sys, t: nat)
    requires EndInv(s) && Enabled(s, Step(t)) && !s.threads[t].pc.Removed? && !s.threads[t].pc.LastOut?
    ensures EndInv(Apply(s, Step(t)))
  {
    SameStanding(s, t);
    EndUntouched(s, Apply(s, Step(t)));
  }

  lemma SameStanding(s: Sys, t: nat)
    requires Enabled(s, Step(t)) && !s.threads[t].pc.Removed? && !s.threads[t].pc.LastOut?
    ensures var r := Apply(s, Step(t));
      && r.alive == s.alive && r.waiter == s.waiter && |r.threads| == |s.threads|
      && forall i :: 0 <= i < |s.threads| ==>
        && Undecremented(r.threads[i]) == Undecremented(s.threads[i])
        && r.threads[i].pc.LastOut? == s.threads[i].pc.LastOut?
        && r.threads[i].pc.Done? == s.threads[i].pc.Done?
  {
  }

  /** The decrement outside the lock: the thread that brings the counter to zero is the last one out. */
  lemma DecrementKeepsEnd(s: Sys, t: nat)
    requires EndInv(s) && t < |s.threads| && s.threads[t].pc.Removed?
    ensures EndInv(Decrement(s, t))
  {
    var r := Decrement(s, t);
    NobodyUndecremented(s.threads);
    CountsUpdate(s.threads, t, r.threads[t], s.bar.phase);
    NobodyUndecremented(r.threads);
    assert !SomeLastOut(s.threads);
    if r.alive == 0 {
      assert r.threads[t].pc.LastOut?;
    }
  }

  /** The locked notify: only one thread is the last one out, and it wakes the main thread. */
  lemma NotifyEndKeepsEnd(s: Sys, t: nat)
    requires EndInv(s) && t < |s.threads| && s.threads[t].pc.LastOut? && s.waiter != Holding
    ensures EndInv(NotifyEnd(s, t))
  {
    var r := NotifyEnd(s, t);
    NobodyUndecremented(s.threads);
    CountsUpdate(s.threads, t, r.threads[t], s.bar.phase);
    NobodyUndecremented(r.threads);
    assert SomeLastOut(s.threads);
  }

  // ---------------------------------------------------------------- the merged results

  lemma ConservedUntouched(c: Contribution, ths: seq<Thread>, ths': seq<Thread>)
    requires Conserved(c, ths) && |ths'| == |ths|
    requires forall i :: 0 <= i < |ths| ==> Part(ths'[i]) == Part(ths[i])
    ensures Conserved(c, ths')
  {
    SumPointwise(ths, PartIterations, ths', PartIterations);
    SumPointwise(ths, PartComplexityN, ths', PartComplexityN);
    SumRealSame(ths, PartRealTime, ths', PartRealTime);
    SumRealSame(ths, PartCpuTime, ths', PartCpuTime);
    SumRealSame(ths, PartManualTime, ths', PartManualTime);
    forall name ensures SumReal(ths, PartCounter(name)) == SumReal(ths', PartCounter(name)) {
      SumRealSame(ths, PartCounter(name), ths', PartCounter(name));
    }
    forall name ensures SomePartHas(ths, name) <==> SomePartHas(ths', name) {
      if i :| 0 <= i < |ths| && name in Part(ths[i]).counters {
        assert name in Part(ths'[i]).counters;
      }
    }
  }

  lemma ConservedMerge(c: Contribution, ths: seq<Thread>, t: nat, x: Thread)
    requires Conserved(c, ths) && t < |ths| && Part(ths[t]) == EMPTY
    ensures Conserved(Add(c, Part(x)), ths[t := x])
  {
    SumUpdate(ths, PartIterations, t, x);
    SumUpdate(ths, PartComplexityN, t, x);
    SumRealUpdate(ths, PartRealTime, t, x);
    SumRealUpdate(ths, PartCpuTime, t, x);
    SumRealUpdate(ths, PartManualTime, t, x);
    var sum := Add(c, Part(x)).counters;
    forall name ensures ValueOf(sum, name) == SumReal(ths[t := x], PartCounter(name)) {
      SumRealUpdate(ths, PartCounter(name), t, x);
    }
    forall name ensures name in sum <==> SomePartHas(ths[t := x], name) {
      if name in Part(x).counters {
        assert name in Part(ths[t := x][t]).counters;
      } else if i :| 0 <= i < |ths| && name in Part(ths[i]).counters {
        assert name in Part(ths[t := x][i]).counters;
      }
    }
  }

  lemma ConservedKept(s: Sys, a: Action)
    requires Conserved(s.results.sum, s.threads) && Enabled(s, a)
    ensures Conserved(Apply(s, a).results.sum, Apply(s, a).threads)
  {
    var r := Apply(s, a);
    if a.Step? && s.threads[a.t].pc.User? && s.threads[a.t].at >= |s.threads[a.t].script| {
      ConservedMerge(s.results.sum, s.threads, a.t, r.threads[a.t]);
    } else {
      PartsUntouched(s, a);
      ConservedUntouched(s.results.sum, s.threads, r.threads);
    }
  }

  /** Every step but a merge leaves the result and what has been merged alone. */
  lemma PartsUntouched(s: Sys, a: Action)
    requires Enabled(s, a)
    requires !(a.Step? && s.threads[a.t].pc.User? && s.threads[a.t].at >= |s.threads[a.t].script|)
    ensures var r := Apply(s, a);
      && r.results.sum == s.results.sum && |r.threads| == |s.threads|
      && forall i :: 0 <= i < |s.threads| ==> Part(r.threads[i]) == Part(s.threads[i])
  {
  }

  // ---------------------------------------------------------------- skips

  lemma {:induction false} FirstSkipAppend(skips: seq<Skip>, skip: Skip)
    ensures FirstSkip(skips + [skip]) == if FirstSkip(skips) == NotSkipped then skip else FirstSkip(skips)
  {
    if skips != [] {
      assert (skips + [skip])[1..] == skips[1..] + [skip];
      FirstSkipAppend(skips[1..], skip);
    }
  }

  lemma FirstSkipStep(s: Sys, a: Action)
    requires FirstSkipKept(s) && Enabled(s, a)
    ensures FirstSkipKept(Apply(s, a))
  {
    var r := Apply(s, a);
    if r.skips != s.skips {
      FirstSkipAppend(s.skips, r.skips[|s.skips|]);
    }
  }

  // ---------------------------------------------------------------- runs

  lemma InvStart(s: Sys)
    requires Init(s)
    ensures Inv(s)
  {
    BarrierStart(s);
    SumBounds(s.threads, UndecrementedTerm, 1, 1);
    ConservedStart(s);
  }

  lemma BarrierStart(s: Sys)
    requires Init(s)
    ensures BarrierInv(s)
  {
    SumBounds(s.threads, LiveTerm, 1, 1);
    NobodyWaits(s.threads, 0);
  }

  lemma ConservedStart(s: Sys)
    requires Init(s)
    ensures Conserved(s.results.sum, s.threads)
  {
    SumBounds(s.threads, PartIterations, 0, 0);
    SumBounds(s.threads, PartComplexityN, 0, 0);
    SumOfZeros(s.threads, PartRealTime);
    SumOfZeros(s.threads, PartCpuTime);
    SumOfZeros(s.threads, PartManualTime);
    forall name ensures SumReal(s.threads, PartCounter(name)) == 0.0 {
      SumOfZeros(s.threads, PartCounter(name));
    }
  }

  lemma InvStep(s: Sys, a: Action)
    requires Inv(s) && Enabled(s, a)
    ensures Inv(Apply(s, a))
  {
    BarrierKept(s, a);
    EndKept(s, a);
    ConservedKept(s, a);
    FirstSkipStep(s, a);
  }

  /** Every state of every run satisfies the invariant. */
  lemma {:induction false} InvAlways(run: seq<Sys>, acts: seq<Action>, k: nat)
    requires IsRun(run, acts) && k < |run|
    ensures Inv(run[k])
  {
    if k == 0 {
      InvStart(run[0]);
    } else {
      InvAlways(run, acts, k - 1);
      InvStep(run[k - 1], acts[k - 1]);
    }
  }
}
