/** What one benchmark function may do on its thread: the vocabulary that the start/stop protocol
    and the State object share, and the order of calls that State's checks let through. */
module Scripts {
  import opened UserCounters

  /** What a benchmark function does, as far as the protocol can see it. */
  datatype UserOp = Wait | Iterate | TimerOn | TimerOff | SkipWith(skip: Skip)

  function WaitCount(ops: seq<UserOp>): nat {
    if ops == [] then 0 else WaitCount(ops[..|ops| - 1]) + (if ops[|ops| - 1] == Wait then 1 else 0)
  }

  /** The checks a State makes on its own thread: how many barrier calls it has made, whether it
      is skipped, whether its timer runs. */
  datatype Local = Local(waits: nat, skipped: bool, timing: bool)

  function After(l: Local, op: UserOp): Local {
    match op
    case Wait => l.(waits := l.waits + 1)
    case Iterate => l
    case TimerOn => l.(timing := true)
    case TimerOff => l.(timing := false)
    case SkipWith(_) => l.(skipped := true, timing := false)
  }

  predicate LegalOp(l: Local, op: UserOp) {
    match op
    case Wait => !l.timing && (l.waits < 2 || l.skipped)
    case Iterate => l.waits == 1
    case TimerOn => l.waits == 1 && !l.skipped && !l.timing
    case TimerOff => l.waits == 1 && l.timing
    case SkipWith(skip) => skip != NotSkipped
  }

  function LocalAfter(ops: seq<UserOp>): Local {
    if ops == [] then Local(0, false, false)
    else After(LocalAfter(ops[..|ops| - 1]), ops[|ops| - 1])
  }

  predicate LegalPrefix(ops: seq<UserOp>) {
    forall i :: 0 <= i < |ops| ==> LegalOp(LocalAfter(ops[..i]), ops[i])
  }

  /** A whole benchmark function: it ends skipped or with its loop finished. */
  predicate LegalScript(ops: seq<UserOp>) {
    LegalPrefix(ops) && (LocalAfter(ops).skipped || LocalAfter(ops).waits >= 2)
  }

  lemma {:induction false} LocalFacts(ops: seq<UserOp>)
    ensures LocalAfter(ops).waits == WaitCount(ops)
    ensures LegalPrefix(ops) && LocalAfter(ops).timing ==> WaitCount(ops) == 1 && !LocalAfter(ops).skipped
  {
    if ops != [] {
      var init := ops[..|ops| - 1];
      LocalFacts(init);
      if LegalPrefix(ops) {
        LegalShorter(ops, |ops| - 1);
      }
    }
  }

  lemma LegalShorter(ops: seq<UserOp>, n: nat)
    requires LegalPrefix(ops) && n <= |ops|
    ensures LegalPrefix(ops[..n])
  {
    forall i | 0 <= i < n ensures LegalOp(LocalAfter(ops[..n][..i]), ops[..n][i]) {
      assert ops[..n][..i] == ops[..i];
    }
  }

  lemma {:induction false} WaitsMonotone(ops: seq<UserOp>, i: nat, j: nat)
    requires i <= j <= |ops|
    ensures WaitCount(ops[..i]) <= WaitCount(ops[..j])
  {
    if i < j {
      WaitsMonotone(ops, i, j - 1);
      assert ops[..j][..j - 1] == ops[..j - 1];
    }
  }
}
