/** Grouped performance counters (google_benchmark/src/perf_counters.cc and perf_counters.h):
    groups are opened on demand, and their reads are compacted into one buffer. */
module PerfCounters {
  import opened Sums
  import opened PerfKernel
  import opened PerfGroups

  const K_PADDING := 2

  // ---------------------------------------------------------------- reading

  method Memmove(buffer: array<int>, to: nat, from: nat, words: nat)
    requires to <= from && from + words <= buffer.Length
    modifies buffer
    ensures forall i :: 0 <= i < to || to + words <= i < buffer.Length ==> buffer[i] == old(buffer[i])
    ensures forall i :: to <= i < to + words ==> buffer[i] == old(buffer[i + (from - to)])
  {
    var i := 0;
    while i < words
      invariant 0 <= i <= words
      invariant forall j :: 0 <= j < to || to + i <= j < buffer.Length ==> buffer[j] == old(buffer[j])
      invariant forall j :: to <= j < to + i ==> buffer[j] == old(buffer[j + (from - to)])
    {
      buffer[to + i] := buffer[from + i];
      i := i + 1;
    }
  }

  /** Position i of the buffer holds the count last reported for ids[i]. */
  ghost predicate Holds(buffer: seq<int>, ids: seq<int>, reported: map<int, int>) {
    |ids| <= |buffer| && forall i :: 0 <= i < |ids| ==> Shows(buffer[i], reported, ids[i])
  }

  /** One more group behind a prefix that holds: its counters are new, so the prefix still holds. */
  lemma HoldsMore(was: seq<int>, before: seq<int>, reported: map<int, int>,
                  now: seq<int>, g: seq<int>, reported': map<int, int>)
    requires Holds(was, before, reported) && Distinct(before + g)
    requires |before| + |g| <= |now| && |was| == |now|
    requires forall i :: 0 <= i < |before| ==> now[i] == was[i]
    requires forall i :: |before| <= i < |before| + |g| ==> Shows(now[i], reported', g[i - |before|])
    requires forall d :: d in reported && d !in g ==> d in reported' && reported'[d] == reported[d]
    ensures Holds(now, before + g, reported')
  {
    var all := before + g;
    forall i | 0 <= i < |all| ensures Shows(now[i], reported', all[i]) {
      if i < |before| {
        assert all[i] == before[i];
        forall j | 0 <= j < |g| ensures g[j] != before[i] {
          assert all[|before| + j] == g[j];
        }
        assert before[i] !in g && Shows(was[i], reported, before[i]);
      } else {
        assert all[i] == g[i - |before|];
      }
    }
  }

  /** Every leader answers and one word is left for the count of the last group. */
  ghost predicate Readable(leaders: seq<int>, ids: seq<int>, failing: set<int>, length: nat) {
    (forall lead :: lead in leaders ==> lead !in failing) && (ids == [] || |ids| < length)
  }

  class PerfCounterValues {
    const values: array<int>
    const nrCounters: nat

    /** The number of counters asked for is kept, but no operation reads it. */
    ghost predicate Valid() {
      values.Length == K_PADDING + K_MAX_COUNTERS
    }

    constructor (nrCounters: nat)
      ensures Valid() && fresh(values) && values.Length == 34 && this.nrCounters == nrCounters
    {
      this.nrCounters := nrCounters;
      values := new int[K_PADDING + K_MAX_COUNTERS];
    }

    /** One read into the rest of the buffer, and the shift that drops its leading word. */
    method ReadGroup(kernel: Kernel, lead: int, pos: nat, size: nat, ghost before: seq<int>) returns (words: int)
      requires lead in kernel.groups && pos + size == values.Length && pos == |before|
      requires Distinct(before + kernel.groups[lead]) && Holds(values[..], before, kernel.reported)
      modifies values, kernel`reported
      ensures words >= 1 <==> lead !in kernel.failing && |kernel.groups[lead]| < size
      ensures words >= 1 ==> words == 1 + |kernel.groups[lead]|
      ensures words >= 1 ==> Holds(values[..], before + kernel.groups[lead], kernel.reported)
    {
      ghost var g, was, reported := kernel.groups[lead], values[..], kernel.reported;
      words := kernel.Read(lead, values, pos, size);
      if words >= 1 {
        ghost var padded := values[..];
        Memmove(values, pos, pos + 1, words - 1);
        ghost var now := values[..];
        forall i | |before| <= i < |before| + |g|
          ensures Shows(now[i], kernel.reported, g[i - |before|])
        {
          assert now[i] == padded[i + 1];
        }
        HoldsMore(was, before, reported, now, g, kernel.reported);
      }
    }

    /** For a buffer of any size: all counts arrive in order exactly when no leader fails and the buffer
        has one word more than there are counters; otherwise nothing is reported as read. */
    method Read(kernel: Kernel, leaders: seq<int>, ghost ids: seq<int>) returns (count: nat)
      requires Aligned(kernel.groups, leaders, ids)
      modifies values, kernel`reported
      ensures Readable(leaders, ids, kernel.failing, values.Length) ==>
        count == |ids| && Holds(values[..], ids, kernel.reported)
      ensures !Readable(leaders, ids, kernel.failing, values.Length) ==> ids != [] && count == 0
    {
      var pos, size, k := 0, values.Length, 0;
      ghost var before: seq<int> := [];
      while k < |leaders|
        invariant 0 <= k <= |leaders| && pos + size == values.Length
        invariant before == Flatten(kernel.groups, leaders[..k]) && pos == |before|
        invariant before <= ids
        invariant k == |leaders| ==> before == ids
        invariant Holds(values[..], before, kernel.reported)
        invariant forall lead :: lead in leaders[..k] ==> lead !in kernel.failing
        invariant before != [] ==> |before| < values.Length
      {
        var lead := leaders[k];
        FlattenPrefix(kernel.groups, leaders, k);
        ghost var g := kernel.groups[lead];
        DistinctPrefix(before + g, ids);
        var words := ReadGroup(kernel, lead, pos, size, before);
        if words < 1 {
          return 0;
        }
        pos := pos + (words - 1);
        size := size - (words - 1);
        before := before + g;
        k := k + 1;
      }
      assert leaders[..k] == leaders;
      count := values.Length - size;
    }
  }

  // ---------------------------------------------------------------- opening

  /** The events that exist; the empty name is skipped like an unknown one. */
  function Usable(known: set<string>): set<string> {
    set name | name in known && |name| > 0
  }

  /** The system call, retried while it is interrupted. */
  method AskKernel(kernel: Kernel, event: string, first: bool, groupId: int,
                   ghost group: int, ghost before: seq<Call<string>>)
    returns (id: int, ghost made: seq<Call<string>>)
    requires kernel.Valid() && (groupId < 0 || groupId in kernel.groups)
    requires (groupId == group || groupId < 0) && (first <==> group < 0)
    requires Asked(before, event, group, -1) && (before == [] ==> groupId == group)
    modifies kernel`open, kernel`groups, kernel`calls
    ensures kernel.Valid() && kernel.calls == old(kernel.calls) + made
    ensures Grown(old(kernel.open), old(kernel.groups), kernel.open, kernel.groups, groupId, groupId, id)
    ensures Asked(before + made, event, group, id)
    ensures IsRetried(made, groupId) && (id < 0 <==> Refused(made[|made| - 1]))
  {
    id, made := -1, [];
    assert before + made == before;
    ghost var calls, open, groups := kernel.calls, kernel.open, kernel.groups;
    var retries, again := 0, true;
    while again && retries < K_NR_OF_SYSCALL_RETRIES
      invariant kernel.Valid() && kernel.calls == calls + made
      invariant again ==> id < 0
      invariant again || 0 < retries
      invariant Asked(before + made, event, group, id)
      invariant again ==> kernel.open == open && kernel.groups == groups
      invariant !again ==> Grown(open, groups, kernel.open, kernel.groups, groupId, groupId, id)
      invariant |made| == retries <= K_NR_OF_SYSCALL_RETRIES && Retrying(made, groupId, again)
      invariant made != [] ==> (id < 0 <==> Refused(made[|made| - 1]))
    {
      ghost var was := id;
      var interrupted;
      id, interrupted := kernel.PerfEventOpen(event, groupId, first);
      ghost var call := Open(event, groupId, id, first, interrupted);
      assert MoreCalls(calls, before, made, event, group, groupId, id, call) by {
        OneMoreCall(calls, before, made, event, group, groupId, was, id, call);
      }
      made := made + [call];
      again := id < 0 && interrupted;
      retries := retries + 1;
    }
  }

  /** The record with one more call. */
  ghost predicate MoreCalls<E>(calls: seq<Call<E>>, before: seq<Call<E>>, made: seq<Call<E>>, event: E, group: int,
                               groupId: int, id: int, call: Call<E>) {
    && calls + (made + [call]) == calls + made + [call]
    && Asked(before + (made + [call]), event, group, id) && Retrying(made + [call], groupId, Interrupted(call))
  }

  lemma OneMoreCall<E>(calls: seq<Call<E>>, before: seq<Call<E>>, made: seq<Call<E>>, event: E, group: int, groupId: int,
                       was: int, id: int, call: Call<E>)
    requires Asked(before + made, event, group, was) && was < 0 && (before + made == [] ==> groupId == group)
    requires (groupId == group || groupId < 0) && Retrying(made, groupId, true)
    requires call.Open? && call == Open(event, groupId, id, group < 0, call.interrupted)
    ensures MoreCalls(calls, before, made, event, group, groupId, id, call)
  {
    AskedAgain(before, made, event, group, groupId, was, id, group < 0, call.interrupted);
    SeqAssoc(calls, made, [call]);
    OneMoreTry(made, groupId, call);
  }

  /** The calls of a step, first or second. */
  lemma StepMade<E>(made: seq<Call<E>>, asked: seq<Call<E>>, group: int, groupId: int)
    requires IsRetried(asked, groupId) && (made == [] ==> groupId == group)
    requires made != [] ==> IsRetried(made, group) && group >= 0 && groupId == -1 && Refused(made[|made| - 1])
    ensures made == [] && groupId >= 0 && Refused(asked[|asked| - 1]) ==> IsRetried(made + asked, group)
    ensures (made + asked)[|made + asked| - 1] == asked[|asked| - 1]
    ensures groupId < 0 || !Refused(asked[|asked| - 1]) ==> InTwoSteps(made + asked, group)
  {
    if made == [] {
      assert made + asked == asked;
      if groupId < 0 || !Refused(asked[|asked| - 1]) {
        OneStep(asked, group);
      }
    } else {
      TwoSteps(made, asked, group);
    }
  }

  /** The loop that asks for a descriptor, in the current group first and then as a leader. */
  method OpenCounter(kernel: Kernel, event: string, group: int)
    returns (id: int, groupId: int, ghost made: seq<Call<string>>)
    requires kernel.Valid() && (group < 0 || group in kernel.groups)
    modifies kernel`open, kernel`groups, kernel`calls
    ensures kernel.Valid() && kernel.calls == old(kernel.calls) + made
    ensures groupId == group || groupId == -1
    ensures id < 0 ==> groupId < 0
    ensures Grown(old(kernel.open), old(kernel.groups), kernel.open, kernel.groups, group, groupId, id)
    ensures Asked(made, event, group, id) && InTwoSteps(made, group)
  {
    id, groupId, made := -1, group, [];
    var first := group < 0;
    var refused := false;
    while id < 0 && !refused
      invariant kernel.Valid() && kernel.calls == old(kernel.calls) + made
      invariant groupId == group || groupId == -1
      invariant Grown(old(kernel.open), old(kernel.groups), kernel.open, kernel.groups, group, groupId, id)
      invariant Asked(made, event, group, id)
      invariant refused ==> groupId < 0
      invariant made == [] ==> groupId == group
      invariant id < 0 && !refused && made != [] ==>
        IsRetried(made, group) && group >= 0 && groupId == -1 && Refused(made[|made| - 1])
      invariant id >= 0 || refused ==> InTwoSteps(made, group)
      decreases id < 0 && !refused, groupId >= 0
    {
      ghost var asked;
      id, asked := AskKernel(kernel, event, first, groupId, group, made);
      SeqAssoc(old(kernel.calls), made, asked);
      StepMade(made, asked, group, groupId);
      made := made + asked;
      if id < 0 {
        if groupId >= 0 {
          groupId := -1;
        } else {
          refused := true;
        }
      }
    }
  }

  /** All counters are closed: nothing else in the kernel changes. */
  method CloseAll(kernel: Kernel, ids: seq<int>)
    requires kernel.Valid()
    modifies kernel`open, kernel`groups
    ensures kernel.Valid() && kernel.open == old(kernel.open) - Elements(ids)
    ensures kernel.groups.Keys == old(kernel.groups).Keys - Elements(ids)
    ensures forall lead :: lead in kernel.groups && (forall d :: d in ids ==> d !in old(kernel.groups)[lead]) ==>
      kernel.groups[lead] == old(kernel.groups)[lead]
  {
    var i := 0;
    while i < |ids|
      invariant 0 <= i <= |ids| && kernel.Valid()
      invariant kernel.open == old(kernel.open) - Elements(ids[..i])
      invariant kernel.groups.Keys == old(kernel.groups).Keys - Elements(ids[..i])
      invariant forall lead :: lead in kernel.groups && (forall d :: d in ids ==> d !in old(kernel.groups)[lead]) ==>
        kernel.groups[lead] == old(kernel.groups)[lead]
    {
      kernel.Close(ids[i]);
      assert ids[..i + 1] == ids[..i] + [ids[i]];
      ElementsMore(ids[..i], ids[i]);
      i := i + 1;
    }
    assert ids[..i] == ids;
  }

  /** Every leader is enabled, up to the first that fails. */
  method EnableAll(kernel: Kernel, leaders: seq<int>) returns (ok: bool, ghost made: seq<Call<string>>)
    modifies kernel`calls
    ensures kernel.calls == old(kernel.calls) + made
    ensures |made| <= |leaders|
    ensures forall i :: 0 <= i < |made| ==> made[i] == Enable(leaders[i], i < |made| - 1 || ok)
    ensures (ok ==> |made| == |leaders|) && (!ok ==> made != [])
  {
    made := [];
    var k := 0;
    while k < |leaders|
      invariant 0 <= k == |made| <= |leaders| && kernel.calls == old(kernel.calls) + made
      invariant forall i :: 0 <= i < k ==> made[i] == Enable(leaders[i], true)
    {
      ok := kernel.EnableGroup(leaders[k]);
      made := made + [Enable(leaders[k], ok)];
      if !ok {
        return;
      }
      k := k + 1;
    }
    ok := true;
  }

  datatype PerfCounters = PerfCounters(counterIds: seq<int>, leaderIds: seq<int>, counterNames: seq<string>)
  {
    ghost predicate Valid(groups: map<int, seq<int>>) {
      |counterNames| == |counterIds| <= K_MAX_COUNTERS && Aligned(groups, leaderIds, counterIds)
    }

    /** True exactly when every group could be read; then names()[i]'s value is values[i]. */
    method Snapshot(kernel: Kernel, values: PerfCounterValues) returns (ok: bool)
      requires Valid(kernel.groups) && values.Valid()
      modifies values.values, kernel`reported
      ensures ok <==> forall lead :: lead in leaderIds ==> lead !in kernel.failing
      ensures ok ==> Holds(values.values[..], counterIds, kernel.reported)
    {
      var count := values.Read(kernel, leaderIds, counterIds);
      ok := count == |counterIds|;
    }
  }

  /** The descriptor for one usable name, recorded as a leader or as a member of the current group. */
  method AddCounter(kernel: Kernel, name: string, group: int, ids: seq<int>, leaders: seq<int>,
                    ghost open: set<int>, ghost groups: map<int, seq<int>>)
    returns (id: int, groupId: int, leaders': seq<int>, ghost made: seq<Call<string>>)
    requires kernel.Valid() && Grouped(open, groups, kernel.open, kernel.groups, leaders, ids)
    requires group >= 0 ==> leaders != [] && group == leaders[|leaders| - 1]
    modifies kernel`open, kernel`groups, kernel`calls
    ensures kernel.Valid() && kernel.calls == old(kernel.calls) + made
    ensures Asked(made, name, group, id) && InTwoSteps(made, group)
    ensures Grouped(open, groups, kernel.open, kernel.groups, leaders', if id >= 0 then ids + [id] else ids)
    ensures id < 0 ==> groupId < 0 && leaders' == leaders
    ensures groupId >= 0 ==> leaders' != [] && groupId == leaders'[|leaders'| - 1]
    ensures id >= 0 ==> groupId >= 0
  {
    ghost var open', groups' := kernel.open, kernel.groups;
    id, groupId, made := OpenCounter(kernel, name, group);
    ghost var now, groupsNow := kernel.open, kernel.groups;
    leaders' := if id >= 0 && groupId < 0 then leaders + [id] else leaders;
    assert Grouped(open, groups, now, groupsNow, leaders', if id >= 0 then ids + [id] else ids) by {
      CounterGrouped(open, groups, open', groups', now, groupsNow, leaders, ids, group, groupId, id);
    }
    groupId := if id >= 0 && groupId < 0 then id else groupId;
  }

  /** One round of the loop over the names. */
  method NextCounter(kernel: Kernel, requested: seq<string>, known: set<string>, i: nat,
                     names: seq<string>, ids: seq<int>, leaders: seq<int>, group: int,
                     ghost open: set<int>, ghost groups: map<int, seq<int>>, ghost before: seq<Call<string>>,
                     ghost made: seq<Call<string>>, ghost rounds: seq<Round<string>>)
    returns (names': seq<string>, ids': seq<int>, leaders': seq<int>, groupId: int,
             ghost made': seq<Call<string>>, ghost rounds': seq<Round<string>>)
    requires kernel.Valid() && kernel.calls == before + made
    requires i < |requested| && |names| < K_MAX_COUNTERS
    requires Recorded(requested, Usable(known), i, made, names, ids, rounds, group, leaders)
    requires Grouped(open, groups, kernel.open, kernel.groups, leaders, ids)
    modifies kernel`open, kernel`groups, kernel`calls
    ensures kernel.Valid() && kernel.calls == before + made'
    ensures Recorded(requested, Usable(known), i + 1, made', names', ids', rounds', groupId, leaders')
    ensures Grouped(open, groups, kernel.open, kernel.groups, leaders', ids')
  {
    var name := requested[i];
    if |name| == 0 || name !in known {
      RecordedSkip(requested, Usable(known), i, made, names, ids, rounds, group, leaders);
      return names, ids, leaders, group, made, rounds;
    }
    var id;
    ghost var calls;
    id, groupId, leaders', calls := AddCounter(kernel, requested[i], group, ids, leaders, open, groups);
    made' := made + calls;
    SeqAssoc(before, made, calls);
    ghost var round := Round(i, name, group, calls, id);
    rounds' := rounds + [round];
    if id >= 0 {
      RecordedGrant(requested, Usable(known), i, made, names, ids, rounds, leaders, round, leaders', groupId);
      names', ids' := names + [name], ids + [id];
    } else {
      RecordedRefusal(requested, Usable(known), i, made, names, ids, rounds, leaders, round, groupId);
      names', ids' := names, ids;
    }
  }

  /** The loop over the requested names. */
  method OpenAll(kernel: Kernel, requested: seq<string>, known: set<string>)
    returns (names: seq<string>, ids: seq<int>, leaders: seq<int>, ghost made: seq<Call<string>>, ghost upTo: nat,
             ghost rounds: seq<Round<string>>, ghost group: int)
    requires kernel.Valid()
    modifies kernel`open, kernel`groups, kernel`calls
    ensures kernel.Valid() && kernel.calls == old(kernel.calls) + made
    ensures Grouped(old(kernel.open), old(kernel.groups), kernel.open, kernel.groups, leaders, ids)
    ensures upTo <= |requested| && Recorded(requested, Usable(known), upTo, made, names, ids, rounds, group, leaders)
    ensures (upTo == |requested| || |names| == 32) && |names| <= 32
  {
    names, ids, leaders, made, rounds := [], [], [], [], [];
    var groupId, i := -1, 0;
    ghost var open, groups, before := kernel.open, kernel.groups, kernel.calls;
    RecordedStart(requested, Usable(known), open, groups, made, names, ids, rounds, leaders, i);
    while i < |requested| && |names| < K_MAX_COUNTERS
      invariant 0 <= i <= |requested| && kernel.Valid() && kernel.calls == before + made
      invariant Recorded(requested, Usable(known), i, made, names, ids, rounds, groupId, leaders)
      invariant Grouped(open, groups, kernel.open, kernel.groups, leaders, ids)
    {
      names, ids, leaders, groupId, made, rounds :=
        NextCounter(kernel, requested, known, i, names, ids, leaders, groupId, open, groups, before, made, rounds);
      i := i + 1;
    }
    upTo, group := i, groupId;
  }

  /** Exactly the granted counters, in contiguous groups; the descriptors opened are theirs and no more. */
  method Create(kernel: Kernel, requested: seq<string>, known: set<string>)
    returns (c: PerfCounters, ghost made: seq<Call<string>>,
             ghost rounds: seq<Round<string>>, ghost enables: seq<Call<string>>, ghost upTo: nat)
    requires kernel.Valid()
    modifies kernel`open, kernel`groups, kernel`calls
    ensures kernel.Valid() && kernel.calls == old(kernel.calls) + made
    ensures Created(requested, Usable(known), made, c.counterNames, c.counterIds)
    ensures forall i :: 0 <= i < |c.counterNames| ==> |c.counterNames[i]| > 0 && c.counterNames[i] in known
    ensures c.Valid(kernel.groups) && SplitsOnRefusal(made)
    ensures RoundsOk(rounds) && made == AllCalls(rounds) + enables
    ensures upTo <= |requested| && AskedFor(rounds, requested, Usable(known), upTo)
    ensures (upTo == |requested| || |Granted(made, |made|)| == 32) && |c.counterNames| <= 32
    ensures forall i :: 0 <= i < |enables| ==> enables[i].Enable?
    ensures Grouped(old(kernel.open), old(kernel.groups), kernel.open, kernel.groups, c.leaderIds, c.counterIds)
  {
    var names, ids, leaders;
    ghost var group;
    names, ids, leaders, made, upTo, rounds, group := OpenAll(kernel, requested, known);
    var ok;
    ok, enables := EnableAll(kernel, leaders);
    CreatedWhenEnabled(requested, Usable(known), made, enables, names, ids, upTo, ok);
    EnablesKeepOrder(made, enables);
    EnablesKeepGranted(made, enables);
    SeqAssoc(old(kernel.calls), made, enables);
    made := made + enables;
    if ok {
      c := PerfCounters(ids, leaders, names);
    } else {
      ghost var open, groups := kernel.open, kernel.groups;
      CloseAll(kernel, ids);
      NothingLeft(old(kernel.open), old(kernel.groups), open, groups, leaders, ids, kernel.groups);
      NoneGrouped(kernel.open, kernel.groups);
      c := PerfCounters([], [], []);
    }
  }

  // ---------------------------------------------------------------- measuring

  /** Entry i of the list is the counter's name with what it counted between the two snapshots. */
  ghost predicate Differences(added: seq<(string, int)>, c: PerfCounters, from: map<int, int>, to: map<int, int>) {
    && |added| == |c.counterNames| == |c.counterIds|
    && forall i :: 0 <= i < |added| ==>
      && c.counterIds[i] in from && c.counterIds[i] in to
      && added[i] == (c.counterNames[i], to[c.counterIds[i]] - from[c.counterIds[i]])
  }

  class PerfCountersMeasurement {
    const counters: PerfCounters
    const startValues: PerfCounterValues
    const endValues: PerfCounterValues
    var validRead: bool

    ghost predicate Valid(groups: map<int, seq<int>>)
    {
      counters.Valid(groups) && startValues.Valid() && endValues.Valid() && startValues.values != endValues.values
    }

    constructor (counters: PerfCounters, startValues: PerfCounterValues, endValues: PerfCounterValues)
      ensures this.counters == counters && this.startValues == startValues && this.endValues == endValues
      ensures validRead
    {
      this.counters, this.startValues, this.endValues, validRead := counters, startValues, endValues, true;
    }

    /** Every group answers at present. */
    ghost predicate Answering(failing: set<int>) {
      forall lead :: lead in counters.leaderIds ==> lead !in failing
    }

    /** A failed snapshot is remembered for good; a good one holds the counts by name. */
    method Start(kernel: Kernel) returns (ok: bool)
      requires Valid(kernel.groups)
      modifies this, startValues.values, kernel`reported
      ensures counters.counterNames == [] ==> ok && validRead == old(validRead)
      ensures counters.counterNames != [] ==>
        ok == validRead && (validRead <==> old(validRead) && Answering(kernel.failing))
      ensures Answering(kernel.failing) ==> Holds(startValues.values[..], counters.counterIds, kernel.reported)
    {
      if |counters.counterNames| == 0 {
        return true;
      }
      var read := counters.Snapshot(kernel, startValues);
      validRead := validRead && read;
      ok := validRead;
    }

    /** Every counter's difference is appended under its own name, whatever the counts at the start were. */
    method Stop(kernel: Kernel, measurements: seq<(string, int)>, ghost from: map<int, int>)
      returns (ok: bool, measurements': seq<(string, int)>)
      requires Valid(kernel.groups)
      modifies this, endValues.values, kernel`reported
      ensures counters.counterNames == [] ==> ok && validRead == old(validRead)
      ensures counters.counterNames != [] ==>
        ok == validRead && (validRead <==> old(validRead) && Answering(kernel.failing))
      ensures measurements <= measurements'
      ensures |measurements'| == |measurements| + |counters.counterNames|
      ensures Answering(kernel.failing) && Holds(startValues.values[..], counters.counterIds, from) ==>
        Differences(measurements'[|measurements|..], counters, from, kernel.reported)
    {
      measurements' := measurements;
      if |counters.counterNames| == 0 {
        return true, measurements';
      }
      var read := counters.Snapshot(kernel, endValues);
      validRead := validRead && read;
      var names, i := counters.counterNames, 0;
      while i < |names|
        invariant 0 <= i <= |names| && |measurements'| == |measurements| + i && measurements <= measurements'
        invariant forall j :: |measurements| <= j < |measurements| + i ==>
          var k := j - |measurements|;
          measurements'[j] == (names[k], endValues.values[k] - startValues.values[k])
      {
        measurements' := measurements' + [(names[i], endValues.values[i] - startValues.values[i])];
        i := i + 1;
      }
      ok := validRead;
      assert forall k :: 0 <= k < |names| ==> endValues.values[..][k] == endValues.values[k];
      assert forall k :: 0 <= k < |names| ==> startValues.values[..][k] == startValues.values[k];
    }
  }

  /** The storage for the counters, or null where the check on their number aborts. */
  method NewValues(nrCounters: nat, checked: bool) returns (values: PerfCounterValues?)
    ensures values == null <==> checked && nrCounters > K_MAX_COUNTERS
    ensures values != null ==> fresh(values) && fresh(values.values) && values.Valid()
  {
    if checked && nrCounters > K_MAX_COUNTERS {
      return null;
    }
    values := new PerfCounterValues(nrCounters);
  }

  /** The constructor of PerfCountersMeasurement. With checks compiled in it aborts exactly when more names
      are requested than there can be counters, before anything is opened; without them any number of names
      is accepted, and what Create grants fits the buffers. */
  method NewMeasurement(kernel: Kernel, names: seq<string>, known: set<string>, checked: bool)
    returns (aborted: bool, m: PerfCountersMeasurement?, ghost made: seq<Call<string>>)
    requires kernel.Valid()
    modifies kernel`open, kernel`groups, kernel`calls
    ensures kernel.Valid() && kernel.calls == old(kernel.calls) + made
    ensures aborted <==> checked && |names| > 32
    ensures aborted ==> m == null && made == [] && kernel.open == old(kernel.open)
    ensures !aborted ==> m != null && fresh(m) && m.Valid(kernel.groups) && m.validRead
    ensures !aborted ==> fresh(m.startValues.values) && fresh(m.endValues.values)
    ensures !aborted ==> Created(names, Usable(known), made, m.counters.counterNames, m.counters.counterIds)
  {
    made := [];
    var start := NewValues(|names|, checked);
    if start == null {
      return true, null, [];
    }
    var end := NewValues(|names|, checked);
    var c;
    ghost var rounds, enables, upTo;
    c, made, rounds, enables, upTo := Create(kernel, names, known);
    m := new PerfCountersMeasurement(c, start, end);
    aborted := false;
  }
}
