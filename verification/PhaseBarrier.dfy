/** The reusable barrier of google_benchmark/src/mutex.h. Every method is one region of code
    that runs under `lock_`; the protocol that interleaves those regions is in StartStop. */
module PhaseBarrier {

  /** The three integers that `lock_` guards. */
  datatype Bar = Bar(running: int, phase: int, entered: int)

  /** What a locked region decides for its caller: sleep on the condition with a copy of the
      phase number, return false, return true as the last thread, or abort on the check. */
  datatype Outcome = Waits(cp: int) | ReturnsFalse | ReturnsTrue | CheckFailed

  function NextPhase(b: Bar): Bar {
    Bar(b.running, b.phase + 1, 0)
  }

  /** The predicate handed to the condition variable. */
  predicate MayProceed(b: Bar, cp: int) {
    b.phase > cp || b.entered == b.running
  }

  function Enter(b: Bar): (Bar, Outcome) {
    var b1 := b.(entered := b.entered + 1);
    if b.entered >= b.running then (b, CheckFailed)
    else if b1.entered < b1.running then (b1, Waits(b.phase))
    else (NextPhase(b1), ReturnsTrue)
  }

  function Recheck(b: Bar, cp: int): (Bar, Outcome) {
    if !MayProceed(b, cp) then (b, Waits(cp))
    else if b.phase > cp then (b, ReturnsFalse)
    else (NextPhase(b), ReturnsTrue)
  }

  function Remove(b: Bar): (Bar, bool) {
    (b.(running := b.running - 1), b.entered != 0)
  }

  class Barrier {
    var runningThreads: int
    var phaseNumber: int
    var entered: int

    function Value(): Bar
      reads this
    {
      Bar(runningThreads, phaseNumber, entered)
    }

    constructor (numThreads: int)
      ensures Value() == Bar(numThreads, 0, 0)
    {
      runningThreads, phaseNumber, entered := numThreads, 0, 0;
    }

    method PassBarrier()
      modifies this
      ensures Value() == NextPhase(old(Value()))
    {
      phaseNumber := phaseNumber + 1;
      entered := 0;
    }

    /** createBarrier from its start to the first release of the lock. */
    method EnterLocked() returns (r: Outcome)
      modifies this
      ensures (Value(), r) == Enter(old(Value()))
    {
      if !(entered < runningThreads) {
        return CheckFailed;
      }
      entered := entered + 1;
      if entered < runningThreads {
        var phaseNumberCp := phaseNumber;
        if !(phaseNumber > phaseNumberCp || entered == runningThreads) {
          return Waits(phaseNumberCp);
        }
      }
      PassBarrier();
      return ReturnsTrue;
    }

    /** createBarrier from a wake-up to the next release of the lock. */
    method RecheckLocked(phaseNumberCp: int) returns (r: Outcome)
      modifies this
      ensures (Value(), r) == Recheck(old(Value()), phaseNumberCp)
    {
      if !(phaseNumber > phaseNumberCp || entered == runningThreads) {
        return Waits(phaseNumberCp);
      }
      if phaseNumber > phaseNumberCp {
        return ReturnsFalse;
      }
      PassBarrier();
      return ReturnsTrue;
    }

    /** removeThread; the result says whether it calls notify_all before unlocking. */
    method RemoveThread() returns (notify: bool)
      modifies this
      ensures (Value(), notify) == Remove(old(Value()))
    {
      runningThreads := runningThreads - 1;
      notify := entered != 0;
    }
  }
}
