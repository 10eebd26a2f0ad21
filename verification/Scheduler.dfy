/** The repetition loop of RunBenchmarks over a shuffled list of repetition indices, with its
    per-family complexity records (google_benchmark/src/benchmark.cc). */
module Scheduler {
  import opened Sums

  /** A runner: how many repetitions it is to do and has done; `family` matters with complexity only. */
  datatype Runner = Runner(repeats: nat, complexity: bool, family: int, done: nat)

  /** One repetition of a runner. */
  datatype Run = Run(runner: nat, repetition: nat)

  /** PerFamilyRunReports: repetitions to come, done, and the runs that were not skipped. */
  datatype Family = Family(total: int, done: int, runs: seq<Run>)

  datatype Event = Repetition(run: Run, skipped: bool) | Reported(runner: nat) | BigO(family: int, runs: seq<Run>)

  datatype Sched = Sched(runners: seq<Runner>, families: map<int, Family>, events: seq<Event>)

  predicate InFamily(r: Runner, f: int) {
    r.complexity && r.family == f
  }

  function TotalTerm(f: int): Runner -> int {
    (r: Runner) => if InFamily(r, f) then r.repeats else 0
  }

  function DoneTerm(f: int): Runner -> int {
    (r: Runner) => if InFamily(r, f) then r.done else 0
  }

  // ---------------------------------------------------------------- one repetition

  function Done(r: Runner): Runner {
    r.(done := r.done + 1)
  }

  function RunAdded(fam: Family, run: Run, skipped: bool): Family {
    Family(fam.total, fam.done + 1, if skipped then fam.runs else fam.runs + [run])
  }

  /** The assert of DoOneRepetition, and a live family record. */
  predicate MayStart(s: Sched, r: nat) {
    && r < |s.runners|
    && s.runners[r].done < s.runners[r].repeats
    && (s.runners[r].complexity ==> s.runners[r].family in s.families)
  }

  /** The runs of the family with this repetition. */
  function RunsWith(s: Sched, r: nat, skipped: bool): seq<Run>
    requires MayStart(s, r) && s.runners[r].complexity
  {
    RunAdded(s.families[s.runners[r].family], Run(r, s.runners[r].done), skipped).runs
  }

  /** What the loop body relies on: also a run in the family record when it is complete. */
  predicate MayRun(s: Sched, r: nat, skipped: bool) {
    && MayStart(s, r)
    && (Completes(s, r) ==> RunsWith(s, r, skipped) != [] && RunsWith(s, r, skipped)[0].runner < |s.runners|)
  }

  /** The repetition is the last of its runner and of its complexity family. */
  predicate Completes(s: Sched, r: nat)
    requires r < |s.runners|
    requires s.runners[r].complexity ==> s.runners[r].family in s.families
  {
    && s.runners[r].complexity && s.runners[r].done + 1 == s.runners[r].repeats
    && s.families[s.runners[r].family].done + 1 == s.families[s.runners[r].family].total
  }

  function RunRepetition(s: Sched, r: nat, skipped: bool): Sched
    requires MayRun(s, r, skipped)
  {
    var run := s.runners[r];
    var runners := s.runners[r := Done(run)];
    var families := if run.complexity
                    then s.families[run.family := RunAdded(s.families[run.family], Run(r, run.done), skipped)]
                    else s.families;
    var events := s.events + [Repetition(Run(r, run.done), skipped)];
    if run.done + 1 != run.repeats then Sched(runners, families, events)
    else if Completes(s, r) then
      var runs := families[run.family].runs;
      Sched(runners, families - {runners[runs[0].runner].family}, events + [Reported(r)] + [BigO(run.family, runs)])
    else Sched(runners, families, events + [Reported(r)])
  }

  // ---------------------------------------------------------------- counting events

  function Count(events: seq<Event>, e: Event -> bool): nat {
    if events == [] then 0
    else Count(events[..|events| - 1], e) + (if e(events[|events| - 1]) then 1 else 0)
  }

  function IsRepetition(r: nat): Event -> bool {
    (e: Event) => e.Repetition? && e.run.runner == r
  }

  function IsReported(r: nat): Event -> bool {
    (e: Event) => e == Reported(r)
  }

  function IsBigO(f: int): Event -> bool {
    (e: Event) => e.BigO? && e.family == f
  }

  lemma CountAppend(events: seq<Event>, x: Event, e: Event -> bool)
    ensures Count(events + [x], e) == Count(events, e) + (if e(x) then 1 else 0)
  {
    assert (events + [x])[..|events|] == events;
  }

  // ---------------------------------------------------------------- the invariant

  function FamilyDone(rs: seq<Runner>, f: int): int {
    Sum(rs, DoneTerm(f))
  }

  function FamilyTotal(rs: seq<Runner>, f: int): int {
    Sum(rs, TotalTerm(f))
  }

  ghost predicate HasFamily(rs: seq<Runner>, f: int) {
    exists r :: 0 <= r < |rs| && InFamily(rs[r], f) && rs[r].repeats > 0
  }

  /** A family's record is live exactly as long as repetitions of it are to come. */
  ghost predicate FamilyOk(s: Sched, f: int) {
    && (f in s.families ==>
          && s.families[f].total == FamilyTotal(s.runners, f) && s.families[f].done == FamilyDone(s.runners, f)
          && forall q :: q in s.families[f].runs ==> q.runner < |s.runners| && InFamily(s.runners[q.runner], f))
    && (HasFamily(s.runners, f) ==>
          (f in s.families <==> FamilyDone(s.runners, f) < FamilyTotal(s.runners, f)))
  }

  predicate RunnersOk(rs: seq<Runner>) {
    forall r :: 0 <= r < |rs| ==> rs[r].done <= rs[r].repeats
  }

  ghost predicate FamiliesOk(s: Sched) {
    RunnersOk(s.runners) && forall f :: FamilyOk(s, f)
  }

  /** The events say how far every runner is; reports and Big-O computations come once, at the end. */
  predicate RunnerEventsOk(r: Runner, i: nat, events: seq<Event>) {
    && Count(events, IsRepetition(i)) == r.done
    && Count(events, IsReported(i)) == if r.done == r.repeats > 0 then 1 else 0
  }

  // ---------------------------------------------------------------- the runs of a family

  function KeptRun(rs: seq<Runner>, e: Event, f: int): seq<Run> {
    if e.Repetition? && !e.skipped && e.run.runner < |rs| && InFamily(rs[e.run.runner], f) then [e.run] else []
  }

  /** The repetitions of the family that were not skipped, in the order in which they were executed. */
  function KeptRuns(rs: seq<Runner>, events: seq<Event>, f: int): seq<Run> {
    if events == [] then []
    else KeptRuns(rs, events[..|events| - 1], f) + KeptRun(rs, events[|events| - 1], f)
  }

  lemma KeptAppend(rs: seq<Runner>, events: seq<Event>, x: Event, f: int)
    ensures KeptRuns(rs, events + [x], f) == KeptRuns(rs, events, f) + KeptRun(rs, x, f)
  {
    assert (events + [x])[..|events|] == events;
  }

  /** Which runs are kept depends on the families of the runners only. */
  lemma {:induction false} KeptSame(rs: seq<Runner>, rs': seq<Runner>, events: seq<Event>, f: int)
    requires |rs| == |rs'| && forall r :: 0 <= r < |rs| ==> (InFamily(rs[r], f) <==> InFamily(rs'[r], f))
    ensures KeptRuns(rs, events, f) == KeptRuns(rs', events, f)
  {
    if events != [] {
      KeptSame(rs, rs', events[..|events| - 1], f);
    }
  }

  /** The runs are different, and of repetitions that have been executed. */
  ghost predicate DifferentRuns(runs: seq<Run>, events: seq<Event>) {
    && (forall i :: 0 <= i < |runs| ==> runs[i].repetition < Count(events, IsRepetition(runs[i].runner)))
    && Distinct(runs)
  }

  lemma OrderShorter(rs: seq<Runner>, init: seq<Event>, x: Event)
    requires OrderOk(rs, init + [x])
    ensures OrderOk(rs, init) && EventInOrder(rs, x, init)
  {
    var events := init + [x];
    assert events[..|init|] == init && events[|init|] == x;
    forall i | 0 <= i < |init| ensures EventInOrder(rs, init[i], init[..i]) {
      assert EventInOrder(rs, events[i], events[..i]);
      assert events[..i] == init[..i];
    }
  }

  /** Every run of a family is kept once. */
  lemma {:induction false} KeptOnce(rs: seq<Runner>, events: seq<Event>, f: int)
    requires OrderOk(rs, events)
    ensures DifferentRuns(KeptRuns(rs, events, f), events)
  {
    if events != [] {
      var init, x := events[..|events| - 1], events[|events| - 1];
      assert events == init + [x];
      OrderShorter(rs, init, x);
      KeptOnce(rs, init, f);
      KeptOneMore(KeptRuns(rs, init, f), init, x, KeptRun(rs, x, f));
    }
  }

  lemma KeptOneMore(runs: seq<Run>, init: seq<Event>, x: Event, more: seq<Run>)
    requires DifferentRuns(runs, init)
    requires more == [] || (x.Repetition? && more == [x.run] && x.run.repetition == Count(init, IsRepetition(x.run.runner)))
    ensures DifferentRuns(runs + more, init + [x])
  {
    var all := runs + more;
    forall i | 0 <= i < |all| ensures all[i].repetition < Count(init + [x], IsRepetition(all[i].runner)) {
      CountAppend(init, x, IsRepetition(all[i].runner));
      assert i < |runs| ==> all[i] == runs[i];
    }
  }

  lemma {:induction false} KeptIsEvent(rs: seq<Runner>, events: seq<Event>, f: int) returns (i: nat)
    requires KeptRuns(rs, events, f) != []
    ensures i < |events| && KeptRun(rs, events[i], f) != []
  {
    var last := |events| - 1;
    if KeptRun(rs, events[last], f) != [] {
      i := last;
    } else {
      i := KeptIsEvent(rs, events[..last], f);
    }
  }

  // ---------------------------------------------------------------- events

  ghost predicate EventsOk(s: Sched) {
    && (forall r: nat :: r < |s.runners| ==> RunnerEventsOk(s.runners[r], r, s.events))
    && (forall f :: HasFamily(s.runners, f) ==>
          Count(s.events, IsBigO(f)) == if f in s.families then 0 else 1)
    && (forall f :: f in s.families ==> s.families[f].runs == KeptRuns(s.runners, s.events, f))
  }

  /** Repetitions are numbered; what is reported or fitted has all its repetitions before it, and a fit gets
      exactly the runs that were not skipped. */
  predicate EventInOrder(rs: seq<Runner>, e: Event, before: seq<Event>) {
    match e
    case Repetition(run, _) => run.runner < |rs| && run.repetition == Count(before, IsRepetition(run.runner))
    case Reported(r) => r < |rs| && Count(before, IsRepetition(r)) == rs[r].repeats
    case BigO(f, runs) =>
      && runs != [] && runs == KeptRuns(rs, before, f)
      && forall r :: 0 <= r < |rs| && InFamily(rs[r], f) ==> Count(before, IsRepetition(r)) == rs[r].repeats
  }

  predicate OrderOk(rs: seq<Runner>, events: seq<Event>) {
    forall i :: 0 <= i < |events| ==> EventInOrder(rs, events[i], events[..i])
  }

  ghost predicate Inv(s: Sched) {
    FamiliesOk(s) && EventsOk(s) && OrderOk(s.runners, s.events)
  }

  lemma FamilyProgress(rs: seq<Runner>, f: int)
    requires RunnersOk(rs)
    ensures FamilyDone(rs, f) <= FamilyTotal(rs, f)
    ensures FamilyDone(rs, f) == FamilyTotal(rs, f) <==>
      forall r :: 0 <= r < |rs| && InFamily(rs[r], f) ==> rs[r].done == rs[r].repeats
  {
    SumPointwise(rs, DoneTerm(f), rs, TotalTerm(f));
    forall r | 0 <= r < |rs|
      ensures DoneTerm(f)(rs[r]) == TotalTerm(f)(rs[r]) <==> (InFamily(rs[r], f) ==> rs[r].done == rs[r].repeats)
    {
    }
  }

  lemma FamilyStep(rs: seq<Runner>, r: nat, f: int)
    requires r < |rs|
    ensures FamilyTotal(rs[r := Done(rs[r])], f) == FamilyTotal(rs, f)
    ensures FamilyDone(rs[r := Done(rs[r])], f) == FamilyDone(rs, f) + (if InFamily(rs[r], f) then 1 else 0)
  {
    SumUpdate(rs, TotalTerm(f), r, Done(rs[r]));
    SumUpdate(rs, DoneTerm(f), r, Done(rs[r]));
  }

  lemma SameFamilies(rs: seq<Runner>, r: nat, f: int)
    requires r < |rs|
    ensures HasFamily(rs[r := Done(rs[r])], f) <==> HasFamily(rs, f)
  {
    var rs' := rs[r := Done(rs[r])];
    if q :| 0 <= q < |rs| && InFamily(rs[q], f) && rs[q].repeats > 0 {
      assert InFamily(rs'[q], f) && rs'[q].repeats > 0;
    }
    if q :| 0 <= q < |rs| && InFamily(rs'[q], f) && rs'[q].repeats > 0 {
      assert InFamily(rs[q], f) && rs[q].repeats > 0;
    }
  }

  lemma FamiliesKept(s: Sched, r: nat, skipped: bool)
    requires FamiliesOk(s) && MayRun(s, r, skipped)
    ensures FamiliesOk(RunRepetition(s, r, skipped))
  {
    forall f ensures FamilyOk(RunRepetition(s, r, skipped), f) {
      FamilyKept(s, r, skipped, f);
    }
  }

  lemma FamilyKept(s: Sched, r: nat, skipped: bool, f: int)
    requires MayRun(s, r, skipped) && RunnersOk(s.runners) && FamilyOk(s, f) && FamilyOk(s, s.runners[r].family)
    ensures FamilyOk(RunRepetition(s, r, skipped), f)
  {
    var s' := RunRepetition(s, r, skipped);
    FamilyStep(s.runners, r, f);
    SameFamilies(s.runners, r, f);
    FamilyProgress(s'.runners, f);
    ErasesOwnFamily(s, r, skipped);
    if InFamily(s.runners[r], f) {
      assert InFamily(s'.runners[r], f);
      assert Completes(s, r) <==> FamilyDone(s'.runners, f) == FamilyTotal(s'.runners, f);
    }
  }

  /** The key taken from the first run of a complete family is the family itself. */
  lemma ErasesOwnFamily(s: Sched, r: nat, skipped: bool)
    requires MayRun(s, r, skipped) && FamilyOk(s, s.runners[r].family)
    ensures var s', f := RunRepetition(s, r, skipped), s.runners[r].family;
      s'.families.Keys == if Completes(s, r) then s.families.Keys - {f} else s.families.Keys
  {
  }

  /** The events one repetition adds. */
  function NewEvents(s: Sched, r: nat, skipped: bool): (e: seq<Event>)
    requires MayRun(s, r, skipped)
    ensures RunRepetition(s, r, skipped).events == s.events + e
  {
    var run := s.runners[r];
    var rep := Repetition(Run(r, run.done), skipped);
    if run.done + 1 != run.repeats then [rep]
    else if Completes(s, r) then [rep, Reported(r), BigO(run.family, RunsWith(s, r, skipped))]
    else [rep, Reported(r)]
  }

  lemma {:induction false} CountConcat(a: seq<Event>, b: seq<Event>, e: Event -> bool)
    ensures Count(a + b, e) == Count(a, e) + Count(b, e)
  {
    if b == [] {
      assert a + b == a;
    } else {
      var init := b[..|b| - 1];
      assert a + b == (a + init) + [b[|b| - 1]];
      CountAppend(a + init, b[|b| - 1], e);
      CountConcat(a, init, e);
    }
  }

  lemma CountNew(s: Sched, r: nat, skipped: bool, e: Event -> bool)
    requires MayRun(s, r, skipped)
    ensures var n := NewEvents(s, r, skipped);
      Count(n, e) == (if e(n[0]) then 1 else 0) + (if |n| > 1 && e(n[1]) then 1 else 0)
                     + (if |n| > 2 && e(n[2]) then 1 else 0)
  {
    var n := NewEvents(s, r, skipped);
    CountAppend([], n[0], e);
    assert [] + [n[0]] == [n[0]];
    if |n| > 1 {
      CountAppend([n[0]], n[1], e);
      assert [n[0]] + [n[1]] == [n[0], n[1]];
    }
    if |n| > 2 {
      CountAppend([n[0], n[1]], n[2], e);
      assert [n[0], n[1]] + [n[2]] == n;
    }
  }

  lemma EventsKept(s: Sched, r: nat, skipped: bool)
    requires FamiliesOk(s) && EventsOk(s) && MayRun(s, r, skipped)
    ensures EventsOk(RunRepetition(s, r, skipped))
  {
    var s' := RunRepetition(s, r, skipped);
    forall q: nat | q < |s'.runners| ensures RunnerEventsOk(s'.runners[q], q, s'.events) {
      RunnerEventsKept(s, r, skipped, q);
    }
    forall f | HasFamily(s'.runners, f)
      ensures Count(s'.events, IsBigO(f)) == if f in s'.families then 0 else 1
    {
      FamilyEventsKept(s, r, skipped, f);
    }
    forall f | f in s'.families ensures s'.families[f].runs == KeptRuns(s'.runners, s'.events, f) {
      RunsKept(s, r, skipped, f);
    }
  }

  lemma RunnerEventsKept(s: Sched, r: nat, skipped: bool, q: nat)
    requires MayRun(s, r, skipped) && q < |s.runners| && RunnerEventsOk(s.runners[q], q, s.events)
    ensures var s' := RunRepetition(s, r, skipped); RunnerEventsOk(s'.runners[q], q, s'.events)
  {
    var n := NewEvents(s, r, skipped);
    CountConcat(s.events, n, IsRepetition(q));
    CountConcat(s.events, n, IsReported(q));
    CountNew(s, r, skipped, IsRepetition(q));
    CountNew(s, r, skipped, IsReported(q));
  }

  lemma {:induction false} KeptConcat(rs: seq<Runner>, a: seq<Event>, b: seq<Event>, f: int)
    ensures KeptRuns(rs, a + b, f) == KeptRuns(rs, a, f) + KeptRuns(rs, b, f)
  {
    if b == [] {
      assert a + b == a;
    } else {
      var init := b[..|b| - 1];
      assert a + b == (a + init) + [b[|b| - 1]];
      KeptAppend(rs, a + init, b[|b| - 1], f);
      KeptConcat(rs, a, init, f);
    }
  }

  /** Of the new events only the first can keep a run. */
  lemma KeptOfNew(rs: seq<Runner>, n: seq<Event>, f: int)
    requires 1 <= |n| <= 3 && forall i :: 1 <= i < |n| ==> !n[i].Repetition?
    ensures KeptRuns(rs, n, f) == KeptRun(rs, n[0], f)
  {
    assert [] + n[..1] == [n[0]];
    KeptAppend(rs, [], n[0], f);
    assert [] + [n[0]] == [n[0]] == n[..1];
    if |n| > 1 {
      assert n[..1] + [n[1]] == n[..2];
      KeptAppend(rs, n[..1], n[1], f);
    }
    if |n| > 2 {
      assert n[..2] + [n[2]] == n;
      KeptAppend(rs, n[..2], n[2], f);
    } else {
      assert n[..|n|] == n;
    }
  }

  /** The kept runs after the new events. */
  lemma KeptNew(s: Sched, r: nat, skipped: bool, f: int)
    requires MayRun(s, r, skipped)
    ensures var s', run := RunRepetition(s, r, skipped), s.runners[r];
      KeptRuns(s'.runners, s'.events, f) ==
      KeptRuns(s.runners, s.events, f) + if !skipped && InFamily(run, f) then [Run(r, run.done)] else []
  {
    var s', n := RunRepetition(s, r, skipped), NewEvents(s, r, skipped);
    KeptSame(s.runners, s'.runners, s.events, f);
    KeptConcat(s'.runners, s.events, n, f);
    KeptOfNew(s'.runners, n, f);
  }

  lemma RunsKept(s: Sched, r: nat, skipped: bool, f: int)
    requires FamiliesOk(s) && EventsOk(s) && MayRun(s, r, skipped) && f in RunRepetition(s, r, skipped).families
    ensures var s' := RunRepetition(s, r, skipped); s'.families[f].runs == KeptRuns(s'.runners, s'.events, f)
  {
    assert FamilyOk(s, s.runners[r].family);
    ErasesOwnFamily(s, r, skipped);
    KeptNew(s, r, skipped, f);
  }

  lemma FamilyEventsKept(s: Sched, r: nat, skipped: bool, f: int)
    requires FamiliesOk(s) && EventsOk(s) && MayRun(s, r, skipped)
    requires HasFamily(RunRepetition(s, r, skipped).runners, f)
    ensures var s' := RunRepetition(s, r, skipped);
      Count(s'.events, IsBigO(f)) == if f in s'.families then 0 else 1
  {
    SameFamilies(s.runners, r, f);
    CountConcat(s.events, NewEvents(s, r, skipped), IsBigO(f));
    CountNew(s, r, skipped, IsBigO(f));
    ErasesOwnFamily(s, r, skipped);
  }

  lemma OrderAppend(rs: seq<Runner>, events: seq<Event>, e: Event)
    requires OrderOk(rs, events) && EventInOrder(rs, e, events)
    ensures OrderOk(rs, events + [e])
  {
    var all := events + [e];
    assert all[..|events|] == events;
    forall i | 0 <= i < |events| ensures all[..i] == events[..i] && all[i] == events[i] {
    }
  }

  lemma OrderOfDone(rs: seq<Runner>, r: nat, events: seq<Event>)
    requires r < |rs| && OrderOk(rs, events)
    ensures OrderOk(rs[r := Done(rs[r])], events)
  {
    OrderSame(rs, rs[r := Done(rs[r])], events);
  }

  /** The order of events depends on the families and repeats of the runners only. */
  lemma OrderSame(rs: seq<Runner>, rs': seq<Runner>, events: seq<Event>)
    requires OrderOk(rs, events) && |rs| == |rs'|
    requires forall r :: 0 <= r < |rs| ==> rs'[r] == rs[r].(done := rs'[r].done)
    ensures OrderOk(rs', events)
  {
    forall i | 0 <= i < |events| ensures EventInOrder(rs', events[i], events[..i]) {
      assert EventInOrder(rs, events[i], events[..i]);
      if events[i].BigO? {
        KeptSame(rs, rs', events[..i], events[i].family);
      }
    }
  }

  lemma OrderKept(s: Sched, r: nat, skipped: bool)
    requires Inv(s) && MayRun(s, r, skipped)
    ensures var s' := RunRepetition(s, r, skipped); OrderOk(s'.runners, s'.events)
  {
    var s' := RunRepetition(s, r, skipped);
    var rs', rep := s'.runners, Repetition(Run(r, s.runners[r].done), skipped);
    var e1 := s.events + [rep];
    assert RunnerEventsOk(s.runners[r], r, s.events);
    OrderOfDone(s.runners, r, s.events);
    OrderAppend(rs', s.events, rep);
    if s.runners[r].done + 1 == s.runners[r].repeats {
      CountAppend(s.events, rep, IsRepetition(r));
      OrderAppend(rs', e1, Reported(r));
      if Completes(s, r) {
        FitInOrder(s, r, skipped);
        OrderAppend(rs', e1 + [Reported(r)], BigO(s.runners[r].family, RunsWith(s, r, skipped)));
      }
    }
  }

  /** When a family completes, all its repetitions are done and its runs are the kept ones. */
  lemma FitInOrder(s: Sched, r: nat, skipped: bool)
    requires Inv(s) && MayRun(s, r, skipped) && Completes(s, r)
    ensures EventInOrder(RunRepetition(s, r, skipped).runners, BigO(s.runners[r].family, RunsWith(s, r, skipped)),
                         s.events + [Repetition(Run(r, s.runners[r].done), skipped)] + [Reported(r)])
  {
    var own, rs' := s.runners[r].family, RunRepetition(s, r, skipped).runners;
    var rep := Repetition(Run(r, s.runners[r].done), skipped);
    var e1 := s.events + [rep];
    var e2 := e1 + [Reported(r)];
    FamilyStep(s.runners, r, own);
    FamilyProgress(rs', own);
    assert FamilyOk(s, own);
    KeptSame(s.runners, rs', s.events, own);
    KeptAppend(rs', s.events, rep, own);
    KeptAppend(rs', e1, Reported(r), own);
    forall q: nat | q < |rs'| && InFamily(rs'[q], own) ensures Count(e2, IsRepetition(q)) == rs'[q].repeats {
      assert RunnerEventsOk(s.runners[q], q, s.events);
      CountAppend(s.events, rep, IsRepetition(q));
      CountAppend(e1, Reported(r), IsRepetition(q));
    }
  }

  lemma InvKept(s: Sched, r: nat, skipped: bool)
    requires Inv(s) && MayRun(s, r, skipped)
    ensures Inv(RunRepetition(s, r, skipped))
  {
    FamiliesKept(s, r, skipped);
    EventsKept(s, r, skipped);
    OrderKept(s, r, skipped);
  }

  // ---------------------------------------------------------------- the object and its loop

  /** The list that is shuffled holds every runner once per repetition. */
  ghost predicate IsShuffle(indices: seq<nat>, runners: seq<Runner>) {
    forall r: nat :: multiset(indices)[r] == if r < |runners| then runners[r].repeats else 0
  }

  /** Every family that is fitted has a run that was not skipped. */
  ghost predicate SomeRunCounts(runners: seq<Runner>, indices: seq<nat>, skipped: seq<bool>)
    requires |skipped| == |indices|
  {
    forall f :: HasFamily(runners, f) ==> FamilyRan(runners, indices, skipped, |indices|, f)
  }

  ghost predicate FamilyRan(runners: seq<Runner>, indices: seq<nat>, skipped: seq<bool>, k: nat, f: int)
    requires |skipped| == |indices| && k <= |indices|
  {
    exists j :: 0 <= j < k && !skipped[j] && indices[j] < |runners| && InFamily(runners[indices[j]], f)
  }

  /** What the loop knows after k repetitions. */
  ghost predicate Progress(s: Sched, runners: seq<Runner>, indices: seq<nat>, skipped: seq<bool>, k: nat)
    requires |skipped| == |indices| && k <= |indices|
  {
    RunnersProgress(s, runners, indices, k) && RunsProgress(s, runners, indices, skipped, k)
  }

  lemma PrefixCount(indices: seq<nat>, k: nat, r: nat)
    requires k < |indices|
    ensures multiset(indices[..k + 1])[r] == multiset(indices[..k])[r] + (if indices[k] == r then 1 else 0)
    ensures multiset(indices[..k + 1])[r] <= multiset(indices)[r]
    ensures multiset(indices[..k + 1])[r] == multiset(indices)[r] ==> forall j :: k < j < |indices| ==> indices[j] != r
  {
    assert indices[..k + 1] == indices[..k] + [indices[k]];
    assert indices == indices[..k + 1] + indices[k + 1..];
    forall j | k < j < |indices| ensures indices[j] in multiset(indices[k + 1..]) {
      assert indices[k + 1..][j - k - 1] == indices[j];
    }
  }

  /** The assert and the live record hold at every step, whatever was skipped. */
  lemma StepStarts(s: Sched, runners: seq<Runner>, indices: seq<nat>, k: nat)
    requires k < |indices| && Inv(s) && RunnersProgress(s, runners, indices, k) && IsShuffle(indices, runners)
    ensures MayStart(s, indices[k])
  {
    var r := indices[k];
    assert r in multiset(indices);
    PrefixCount(indices, k, r);
    assert s.runners[r].done < s.runners[r].repeats;
    if s.runners[r].complexity {
      var f := s.runners[r].family;
      assert FamilyOk(s, f) && InFamily(s.runners[r], f) && HasFamily(s.runners, f);
      FamilyProgress(s.runners, f);
    }
  }

  /** The loop body's assumptions hold at every step. */
  lemma StepAllowed(s: Sched, runners: seq<Runner>, indices: seq<nat>, skipped: seq<bool>, k: nat)
    requires |skipped| == |indices| && k < |indices|
    requires Inv(s) && Progress(s, runners, indices, skipped, k)
    requires IsShuffle(indices, runners) && SomeRunCounts(runners, indices, skipped)
    ensures MayRun(s, indices[k], skipped[k])
  {
    StepStarts(s, runners, indices, k);
    if Completes(s, indices[k]) {
      CompleteFamilyRan(s, runners, indices, skipped, k);
    }
  }

  /** When a family completes at step k, all its repetitions are among the first k + 1. */
  lemma CompleteFamilyRan(s: Sched, runners: seq<Runner>, indices: seq<nat>, skipped: seq<bool>, k: nat)
    requires |skipped| == |indices| && k < |indices|
    requires Inv(s) && Progress(s, runners, indices, skipped, k)
    requires IsShuffle(indices, runners) && SomeRunCounts(runners, indices, skipped)
    requires MayStart(s, indices[k]) && Completes(s, indices[k])
    ensures MayRun(s, indices[k], skipped[k])
  {
    var r := indices[k];
    var f, rs' := s.runners[r].family, s.runners[r := Done(s.runners[r])];
    FamilyStep(s.runners, r, f);
    FamilyProgress(rs', f);
    assert FamilyOk(s, f);
    assert InFamily(runners[r], f) && HasFamily(runners, f);
    var j :| 0 <= j < |indices| && !skipped[j] && indices[j] < |runners| && InFamily(runners[indices[j]], f);
    var q := indices[j];
    assert InFamily(rs'[q], f) && rs'[q].done == rs'[q].repeats;
    PrefixCount(indices, k, q);
    if j < k {
      assert FamilyRan(runners, indices, skipped, k, f);
      assert s.families[f].runs[0] in s.families[f].runs;
    } else {
      assert j == k;
      if s.families[f].runs != [] {
        assert s.families[f].runs[0] in s.families[f].runs;
      }
    }
  }

  ghost predicate RunnersProgress(s: Sched, runners: seq<Runner>, indices: seq<nat>, k: nat)
    requires k <= |indices|
  {
    && |s.runners| == |runners|
    && forall r :: 0 <= r < |runners| ==> s.runners[r] == runners[r].(done := multiset(indices[..k])[r as nat])
  }

  lemma RunnersProgressKept(s: Sched, runners: seq<Runner>, indices: seq<nat>, skip: bool, k: nat)
    requires k < |indices| && RunnersProgress(s, runners, indices, k) && MayRun(s, indices[k], skip)
    ensures RunnersProgress(RunRepetition(s, indices[k], skip), runners, indices, k + 1)
  {
    var s' := RunRepetition(s, indices[k], skip);
    forall q | 0 <= q < |runners|
      ensures s'.runners[q] == runners[q].(done := multiset(indices[..k + 1])[q as nat])
    {
      PrefixCount(indices, k, q);
    }
  }

  /** Every live family that had a run counts at least one. */
  ghost predicate RunsProgress(s: Sched, runners: seq<Runner>, indices: seq<nat>, skipped: seq<bool>, k: nat)
    requires |skipped| == |indices| && k <= |indices|
  {
    forall f :: f in s.families && FamilyRan(runners, indices, skipped, k, f) ==> s.families[f].runs != []
  }

  lemma RunsProgressKept(s: Sched, runners: seq<Runner>, indices: seq<nat>, skipped: seq<bool>, k: nat)
    requires |skipped| == |indices| && k < |indices| && MayRun(s, indices[k], skipped[k])
    requires FamilyOk(s, s.runners[indices[k]].family)
    requires RunnersProgress(s, runners, indices, k) && RunsProgress(s, runners, indices, skipped, k)
    ensures RunsProgress(RunRepetition(s, indices[k], skipped[k]), runners, indices, skipped, k + 1)
  {
    var s' := RunRepetition(s, indices[k], skipped[k]);
    ErasesOwnFamily(s, indices[k], skipped[k]);
    forall f | f in s'.families && FamilyRan(runners, indices, skipped, k + 1, f) ensures s'.families[f].runs != [] {
      var j :| 0 <= j < k + 1 && !skipped[j] && indices[j] < |runners| && InFamily(runners[indices[j]], f);
      if j < k {
        assert FamilyRan(runners, indices, skipped, k, f);
      }
    }
  }

  lemma ProgressKept(s: Sched, runners: seq<Runner>, indices: seq<nat>, skipped: seq<bool>, k: nat)
    requires |skipped| == |indices| && k < |indices|
    requires Inv(s) && Progress(s, runners, indices, skipped, k) && MayRun(s, indices[k], skipped[k])
    ensures Progress(RunRepetition(s, indices[k], skipped[k]), runners, indices, skipped, k + 1)
  {
    RunnersProgressKept(s, runners, indices, skipped[k], k);
    assert FamilyOk(s, s.runners[indices[k]].family);
    RunsProgressKept(s, runners, indices, skipped, k);
  }

  /** The invariant of the repetition loop. */
  ghost predicate LoopInv(s: Sched, runners: seq<Runner>, indices: seq<nat>, skipped: seq<bool>, k: nat)
    requires |skipped| == |indices| && k <= |indices|
  {
    Inv(s) && Progress(s, runners, indices, skipped, k) && FromSteps(s.events, indices, skipped, k)
  }

  lemma LoopStarts(s: Sched, indices: seq<nat>, skipped: seq<bool>)
    requires |skipped| == |indices| && Fresh(s)
    ensures LoopInv(s, s.runners, indices, skipped, 0)
  {
    FreshInv(s);
    assert multiset(indices[..0]) == multiset{};
  }

  lemma LoopMayStart(s: Sched, runners: seq<Runner>, indices: seq<nat>, skipped: seq<bool>, k: nat)
    requires |skipped| == |indices| && k < |indices| && IsShuffle(indices, runners)
    requires LoopInv(s, runners, indices, skipped, k)
    ensures MayStart(s, indices[k]) && RunsInRange(s, indices[k])
  {
    StepStarts(s, runners, indices, k);
    assert FamilyOk(s, s.runners[indices[k]].family);
  }

  lemma LoopStep(s: Sched, runners: seq<Runner>, indices: seq<nat>, skipped: seq<bool>, k: nat)
    requires |skipped| == |indices| && k < |indices| && MayRun(s, indices[k], skipped[k])
    requires LoopInv(s, runners, indices, skipped, k)
    ensures LoopInv(RunRepetition(s, indices[k], skipped[k]), runners, indices, skipped, k + 1)
  {
    InvKept(s, indices[k], skipped[k]);
    ProgressKept(s, runners, indices, skipped, k);
    FromStepsKept(s, indices, skipped, k);
  }

  lemma LoopStuck(s: Sched, runners: seq<Runner>, indices: seq<nat>, skipped: seq<bool>, k: nat)
    requires |skipped| == |indices| && k < |indices| && IsShuffle(indices, runners)
    requires LoopInv(s, runners, indices, skipped, k)
    ensures SomeRunCounts(runners, indices, skipped) ==> MayRun(s, indices[k], skipped[k])
  {
    if SomeRunCounts(runners, indices, skipped) {
      StepAllowed(s, runners, indices, skipped, k);
    }
  }

  lemma LoopDone(s: Sched, runners: seq<Runner>, indices: seq<nat>, skipped: seq<bool>)
    requires |skipped| == |indices| && IsShuffle(indices, runners)
    requires LoopInv(s, runners, indices, skipped, |indices|)
    ensures AllDone(runners, s.events) && SomeRunCounts(runners, indices, skipped)
  {
    EverythingDone(s, runners, indices);
    DoneRunsCount(runners, s.events, indices, skipped);
  }

  predicate RunsInRange(s: Sched, r: nat)
    requires MayStart(s, r)
  {
    s.runners[r].complexity ==> forall q :: q in s.families[s.runners[r].family].runs ==> q.runner < |s.runners|
  }

  /** Every runner has done and reported exactly its repetitions, every family is fitted once, and
      everything is in order. */
  ghost predicate AllDone(runners: seq<Runner>, events: seq<Event>) {
    && (forall r: nat :: r < |runners| ==>
          && Count(events, IsRepetition(r)) == runners[r].repeats
          && Count(events, IsReported(r)) == if runners[r].repeats > 0 then 1 else 0)
    && (forall f :: HasFamily(runners, f) ==> Count(events, IsBigO(f)) == 1)
    && OrderOk(runners, events)
  }

  lemma EverythingDone(s: Sched, runners: seq<Runner>, indices: seq<nat>)
    requires Inv(s) && RunnersProgress(s, runners, indices, |indices|) && IsShuffle(indices, runners)
    ensures AllDone(runners, s.events)
  {
    assert indices[..|indices|] == indices;
    forall r: nat | r < |runners|
      ensures s.runners[r] == runners[r].(done := runners[r].repeats) && RunnerEventsOk(s.runners[r], r, s.events)
    {
    }
    forall f | HasFamily(runners, f) ensures Count(s.events, IsBigO(f)) == 1 {
      var q :| 0 <= q < |runners| && InFamily(runners[q], f) && runners[q].repeats > 0;
      assert InFamily(s.runners[q], f) && HasFamily(s.runners, f) && FamilyOk(s, f);
      FamilyProgress(s.runners, f);
    }
    OrderSame(s.runners, runners, s.events);
  }

  // ---------------------------------------------------------------- when every step is allowed

  /** Every event that counts for a family is a step that was not skipped. */
  ghost predicate FromSteps(events: seq<Event>, indices: seq<nat>, skipped: seq<bool>, k: nat)
    requires |skipped| == |indices| && k <= |indices|
  {
    forall i :: 0 <= i < |events| && events[i].Repetition? && !events[i].skipped ==>
      exists j :: 0 <= j < k && !skipped[j] && indices[j] == events[i].run.runner
  }

  lemma FromStepsKept(s: Sched, indices: seq<nat>, skipped: seq<bool>, k: nat)
    requires |skipped| == |indices| && k < |indices|
    requires FromSteps(s.events, indices, skipped, k) && MayRun(s, indices[k], skipped[k])
    ensures FromSteps(RunRepetition(s, indices[k], skipped[k]).events, indices, skipped, k + 1)
  {
    var n := NewEvents(s, indices[k], skipped[k]);
    var events := s.events + n;
    forall i | 0 <= i < |events| && events[i].Repetition? && !events[i].skipped
      ensures exists j :: 0 <= j < k + 1 && !skipped[j] && indices[j] == events[i].run.runner
    {
      if i < |s.events| {
        assert events[i] == s.events[i];
        var j :| 0 <= j < k && !skipped[j] && indices[j] == events[i].run.runner;
        assert 0 <= j < k + 1;
      } else {
        assert events[i] == n[i - |s.events|] == n[0];
        assert !skipped[k] && indices[k] == events[i].run.runner;
      }
    }
  }

  /** When the loop has come through, every family with repetitions has a run that counts. */
  lemma DoneRunsCount(runners: seq<Runner>, events: seq<Event>, indices: seq<nat>, skipped: seq<bool>)
    requires |skipped| == |indices| && AllDone(runners, events) && FromSteps(events, indices, skipped, |indices|)
    ensures SomeRunCounts(runners, indices, skipped)
  {
    forall f | HasFamily(runners, f) ensures FamilyRan(runners, indices, skipped, |indices|, f) {
      var i := BigOIsEvent(events, f);
      assert EventInOrder(runners, events[i], events[..i]);
      var e := KeptIsEvent(runners, events[..i], f);
      assert events[..i][e] == events[e];
    }
  }

  lemma {:induction false} BigOIsEvent(events: seq<Event>, f: int) returns (i: nat)
    requires Count(events, IsBigO(f)) > 0
    ensures i < |events| && events[i].BigO? && events[i].family == f
  {
    var last := |events| - 1;
    if IsBigO(f)(events[last]) {
      i := last;
    } else {
      i := BigOIsEvent(events[..last], f);
    }
  }

  /** The steps from the k-th on never read the front of an empty list, nor fail otherwise. */
  predicate StepsAllowed(s: Sched, indices: seq<nat>, skipped: seq<bool>, k: nat)
    requires |skipped| == |indices| && k <= |indices|
    decreases |indices| - k
  {
    k < |indices| ==>
      && MayRun(s, indices[k], skipped[k])
      && StepsAllowed(RunRepetition(s, indices[k], skipped[k]), indices, skipped, k + 1)
  }

  lemma {:induction false} AllowedWhenRunsCount(s: Sched, runners: seq<Runner>, indices: seq<nat>,
                                                skipped: seq<bool>, k: nat)
    requires |skipped| == |indices| && k <= |indices| && Inv(s) && Progress(s, runners, indices, skipped, k)
    requires IsShuffle(indices, runners) && SomeRunCounts(runners, indices, skipped)
    ensures StepsAllowed(s, indices, skipped, k)
    decreases |indices| - k
  {
    if k < |indices| {
      StepAllowed(s, runners, indices, skipped, k);
      InvKept(s, indices[k], skipped[k]);
      ProgressKept(s, runners, indices, skipped, k);
      AllowedWhenRunsCount(RunRepetition(s, indices[k], skipped[k]), runners, indices, skipped, k + 1);
    }
  }

  lemma {:induction false} RunsCountWhenAllowed(s: Sched, runners: seq<Runner>, indices: seq<nat>,
                                                skipped: seq<bool>, k: nat)
    requires |skipped| == |indices| && k <= |indices| && Inv(s) && RunnersProgress(s, runners, indices, k)
    requires IsShuffle(indices, runners) && FromSteps(s.events, indices, skipped, k)
    requires StepsAllowed(s, indices, skipped, k)
    ensures SomeRunCounts(runners, indices, skipped)
    decreases |indices| - k
  {
    if k < |indices| {
      InvKept(s, indices[k], skipped[k]);
      RunnersProgressKept(s, runners, indices, skipped[k], k);
      FromStepsKept(s, indices, skipped, k);
      RunsCountWhenAllowed(RunRepetition(s, indices[k], skipped[k]), runners, indices, skipped, k + 1);
    } else {
      EverythingDone(s, runners, indices);
      DoneRunsCount(runners, s.events, indices, skipped);
    }
  }

  /** For every shuffle: all steps are allowed exactly when every family with repetitions has a run
      that is not skipped. */
  lemma AllowedExactlyWhen(s: Sched, indices: seq<nat>, skipped: seq<bool>)
    requires |skipped| == |indices| && Fresh(s) && IsShuffle(indices, s.runners)
    ensures StepsAllowed(s, indices, skipped, 0) <==> SomeRunCounts(s.runners, indices, skipped)
  {
    FreshInv(s);
    if StepsAllowed(s, indices, skipped, 0) {
      RunsCountWhenAllowed(s, s.runners, indices, skipped, 0);
    }
    if SomeRunCounts(s.runners, indices, skipped) {
      AllowedWhenRunsCount(s, s.runners, indices, skipped, 0);
    }
  }

  /** One runner with one repetition, which is skipped: its family completes without any run. */
  lemma SkippedFamilyFails(s: Sched, indices: seq<nat>, skipped: seq<bool>)
    requires s == Sched([Runner(1, true, 0, 0)], map[0 := Family(1, 0, [])], [])
    requires indices == [0] && skipped == [true]
    ensures Fresh(s) && IsShuffle(indices, s.runners) && !StepsAllowed(s, indices, skipped, 0)
  {
    assert s.runners[1..] == [];
    assert TotalTerm(0)(s.runners[0]) == 1;
    assert FamilyTotal(s.runners, 0) == 1;
    assert Completes(s, 0) && RunsWith(s, 0, true) == [];
  }

  ghost predicate Fresh(s: Sched) {
    && (forall r :: 0 <= r < |s.runners| ==> s.runners[r].done == 0)
    && s.events == []
    && (forall f :: f in s.families ==> s.families[f] == Family(FamilyTotal(s.runners, f), 0, []))
    && (forall r :: 0 <= r < |s.runners| && s.runners[r].complexity ==> s.runners[r].family in s.families)
  }

  lemma FreshInv(s: Sched)
    requires Fresh(s)
    ensures Inv(s)
  {
    forall f ensures FamilyOk(s, f) {
      FamilyProgress(s.runners, f);
      SumBounds(s.runners, DoneTerm(f), 0, 0);
      if HasFamily(s.runners, f) {
        var q :| 0 <= q < |s.runners| && InFamily(s.runners[q], f) && s.runners[q].repeats > 0;
        assert FamilyDone(s.runners, f) < FamilyTotal(s.runners, f);
      }
    }
  }

  /** The records after the first k runners were counted. */
  ghost predicate Counted(fams: map<int, Family>, rs: seq<Runner>, k: nat)
    requires k <= |rs|
  {
    && (forall f :: f in fams ==> fams[f] == Family(FamilyTotal(rs[..k], f), 0, []))
    && (forall f :: f !in fams ==> FamilyTotal(rs[..k], f) == 0)
    && forall r :: 0 <= r < k && rs[r].complexity ==> rs[r].family in fams
  }

  function CountRunner(fams: map<int, Family>, r: Runner): map<int, Family> {
    if !r.complexity then fams
    else fams[r.family := Family((if r.family in fams then fams[r.family].total else 0) + r.repeats, 0, [])]
  }

  lemma CountedMore(fams: map<int, Family>, rs: seq<Runner>, k: nat)
    requires k < |rs| && Counted(fams, rs, k)
    ensures Counted(CountRunner(fams, rs[k]), rs, k + 1)
  {
    var fams' := CountRunner(fams, rs[k]);
    forall f ensures FamilyTotal(rs[..k + 1], f) == FamilyTotal(rs[..k], f) + TotalTerm(f)(rs[k]) {
      assert rs[..k + 1] == rs[..k] + [rs[k]];
      SumAppend(rs[..k], TotalTerm(f), rs[k]);
    }
  }

  class Benchmarks {
    var runners: seq<Runner>
    var perFamilyReports: map<int, Family>
    var events: seq<Event>

    function Value(): Sched
      reads this
    {
      Sched(runners, perFamilyReports, events)
    }

    /** The loop that creates the runners and counts the repetitions of every family. */
    constructor (initial: seq<Runner>)
      requires forall r :: 0 <= r < |initial| ==> initial[r].done == 0
      ensures runners == initial && Fresh(Value())
    {
      var fams: map<int, Family> := map[];
      var k := 0;
      while k < |initial|
        invariant 0 <= k <= |initial| && Counted(fams, initial, k)
      {
        CountedMore(fams, initial, k);
        if initial[k].complexity {
          var f := initial[k].family;
          var total := if f in fams then fams[f].total else 0;
          fams := fams[f := Family(total + initial[k].repeats, 0, [])];
        }
        k := k + 1;
      }
      assert initial[..k] == initial;
      runners, perFamilyReports, events := initial, fams, [];
    }

    /** One pass of the loop; false where it would read the first run of a complete family that has none. */
    method RunOne(r: nat, skipped: bool) returns (ok: bool)
      requires MayStart(Value(), r) && RunsInRange(Value(), r)
      modifies this
      ensures ok <==> MayRun(old(Value()), r, skipped)
      ensures ok ==> Value() == RunRepetition(old(Value()), r, skipped)
    {
      var run := runners[r];
      var id := Run(r, run.done);
      if run.complexity {
        perFamilyReports := perFamilyReports[run.family := RunAdded(perFamilyReports[run.family], id, skipped)];
      }
      events := events + [Repetition(id, skipped)];
      runners := runners[r := Done(run)];
      if runners[r].done != runners[r].repeats {
        return true;
      }
      events := events + [Reported(r)];
      if run.complexity {
        var fam := perFamilyReports[run.family];
        if fam.done == fam.total {
          events := events + [BigO(run.family, fam.runs)];
          if |fam.runs| == 0 {
            return false;
          }
          assert fam.runs[0] in fam.runs;
          perFamilyReports := perFamilyReports - {runners[fam.runs[0].runner].family};
        }
      }
      ok := true;
    }

    /** The repetition loop, for any shuffle of the indices and any outcome of the repetitions. It comes
        through exactly when every family with repetitions has a run that was not skipped. */
    method RunAll(indices: seq<nat>, skipped: seq<bool>) returns (ok: bool)
      requires |skipped| == |indices| && IsShuffle(indices, runners)
      requires Fresh(Value())
      modifies this
      ensures ok <==> SomeRunCounts(old(runners), indices, skipped)
      ensures ok ==> AllDone(old(runners), events)
    {
      ghost var start := runners;
      var k := 0;
      LoopStarts(Value(), indices, skipped);
      while k < |indices|
        invariant 0 <= k <= |indices| && LoopInv(Value(), start, indices, skipped, k)
      {
        LoopMayStart(Value(), start, indices, skipped, k);
        LoopStuck(Value(), start, indices, skipped, k);
        ghost var before := Value();
        ok := RunOne(indices[k], skipped[k]);
        if !ok {
          return;
        }
        LoopStep(before, start, indices, skipped, k);
        k := k + 1;
      }
      LoopDone(Value(), start, indices, skipped);
      ok := true;
    }
  }
}
