/** User counters and the merging of per-thread results
    (google_benchmark/src/counter.cc, google_benchmark/src/benchmark_runner.cc). */
module UserCounters {

  /** A counter keeps its flags and its 1000/1024 unit; only the value is added up. */
  datatype Counter = Counter(value: real, flags: int, oneK: int)

  type Counters = map<string, Counter>

  datatype Skip = NotSkipped | SkippedWithMessage(msg: string) | SkippedWithError(msg: string)

  /** What one thread adds to the shared result when its benchmark function has returned. */
  datatype Contribution = Contribution(iterations: int, realTime: real, cpuTime: real, manualTime: real,
                                       complexityN: int, counters: Counters)

  datatype Totals = Totals(sum: Contribution, skip: Skip)

  const EMPTY := Contribution(0, 0.0, 0.0, 0.0, 0, map[])

  /** The value a counter name has in a collection, 0 when it is absent. */
  function ValueOf(c: Counters, name: string): real {
    if name in c then c[name].value else 0.0
  }

  function Increment(l: Counters, r: Counters): (res: Counters)
    ensures res.Keys == l.Keys + r.Keys
    ensures forall name :: ValueOf(res, name) == ValueOf(l, name) + ValueOf(r, name)
    ensures forall name :: name in res ==>
      var first := if name in l then l[name] else r[name];
      res[name].flags == first.flags && res[name].oneK == first.oneK
  {
    map name | name in l.Keys + r.Keys ::
      if name !in l then r[name]
      else if name in r then l[name].(value := l[name].value + r[name].value)
      else l[name]
  }

  function Add(a: Contribution, b: Contribution): Contribution {
    Contribution(a.iterations + b.iterations, a.realTime + b.realTime, a.cpuTime + b.cpuTime,
                 a.manualTime + b.manualTime, a.complexityN + b.complexityN,
                 Increment(a.counters, b.counters))
  }

  /** The `results` object of a ThreadManager. */
  class Results {
    var iterations: int
    var realTimeUsed: real
    var cpuTimeUsed: real
    var manualTimeUsed: real
    var complexityN: int
    var counters: Counters
    var skipped: Skip

    function Value(): Totals
      reads this
    {
      Totals(Contribution(iterations, realTimeUsed, cpuTimeUsed, manualTimeUsed, complexityN, counters), skipped)
    }

    constructor ()
      ensures Value() == Totals(EMPTY, NotSkipped)
    {
      iterations, realTimeUsed, cpuTimeUsed, manualTimeUsed := 0, 0.0, 0.0, 0.0;
      complexityN, counters, skipped := 0, map[], NotSkipped;
    }

    /** internal::Increment on the merged counters: first the names already present, then the new ones. */
    method IncrementCounters(r: Counters)
      modifies this`counters
      ensures counters == Increment(old(counters), r)
    {
      var was := counters;
      var todo := was.Keys;
      while todo != {}
        invariant todo <= was.Keys == counters.Keys
        invariant forall name :: name in was ==>
          counters[name] == if name in todo then was[name] else Increment(was, r)[name]
      {
        var name :| name in todo;
        if name in r {
          counters := counters[name := counters[name].(value := counters[name].value + r[name].value)];
        }
        todo := todo - {name};
      }
      todo := r.Keys;
      while todo != {}
        invariant todo <= r.Keys
        invariant counters.Keys == was.Keys + (r.Keys - todo)
        invariant forall name :: name in counters ==> counters[name] == Increment(was, r)[name]
      {
        var name :| name in todo;
        if name !in counters {
          counters := counters[name := r[name]];
        } 
        todo := todo - {name};
      }
      assert counters.Keys == Increment(was, r).Keys;
    }

    /** The locked region at the end of RunInThread. */
    method Merge(c: Contribution)
      modifies this
      ensures Value() == old(Value()).(sum := Add(old(Value()).sum, c))
    {
      iterations := iterations + c.iterations;
      cpuTimeUsed := cpuTimeUsed + c.cpuTime;
      realTimeUsed := realTimeUsed + c.realTime;
      manualTimeUsed := manualTimeUsed + c.manualTime;
      complexityN := complexityN + c.complexityN;
      IncrementCounters(c.counters);
    }

    /** The locked region of SkipWithMessage and SkipWithError: only the first skip is kept. */
    method RecordSkip(s: Skip)
      modifies this`skipped
      ensures Value() == old(Value()).(skip := if old(skipped) == NotSkipped then s else old(skipped))
    {
      if skipped == NotSkipped {
        skipped := s;
      }
    }
  }
}
