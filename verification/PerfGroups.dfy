/** Counters in groups: how descriptors are granted and where their counts end up. */
module PerfGroups {
  import opened Sums
  import opened PerfKernel

  const K_MAX_COUNTERS := 32
  const K_NR_OF_SYSCALL_RETRIES := 5

  // ---------------------------------------------------------------- groups

  predicate Led(groups: map<int, seq<int>>, leaders: seq<int>) {
    forall i :: 0 <= i < |leaders| ==> leaders[i] in groups
  }

  /** The counters of the groups, leader by leader. */
  function Flatten(groups: map<int, seq<int>>, leaders: seq<int>): seq<int>
    requires Led(groups, leaders)
  {
    if leaders == [] then []
    else Flatten(groups, leaders[..|leaders| - 1]) + groups[leaders[|leaders| - 1]]
  }

  /** The groups of the leaders, one after the other, are exactly the counters. */
  ghost predicate Aligned(groups: map<int, seq<int>>, leaders: seq<int>, ids: seq<int>) {
    && Led(groups, leaders)
    && (forall i :: 0 <= i < |leaders| ==> |groups[leaders[i]]| > 0)
    && Distinct(ids)
    && Flatten(groups, leaders) == ids
  }

  lemma {:induction false} FlattenConcat(groups: map<int, seq<int>>, a: seq<int>, b: seq<int>)
    requires Led(groups, a) && Led(groups, b)
    ensures Flatten(groups, a + b) == Flatten(groups, a) + Flatten(groups, b)
  {
    if b == [] {
      assert a + b == a;
    } else {
      var init, last := b[..|b| - 1], b[|b| - 1];
      assert a + b == a + init + [last];
      assert (a + init + [last])[..|a + init|] == a + init;
      FlattenConcat(groups, a, init);
    }
  }

  lemma {:induction false} FlattenAppend(groups: map<int, seq<int>>, a: seq<int>, lead: int)
    requires lead in groups && Led(groups, a)
    ensures Flatten(groups, a + [lead]) == Flatten(groups, a) + groups[lead]
  {
    assert (a + [lead])[..|a|] == a;
  }

  lemma {:induction false} FlattenSame(groups: map<int, seq<int>>, groups': map<int, seq<int>>, leaders: seq<int>)
    requires Led(groups, leaders) && Led(groups', leaders)
    requires forall i :: 0 <= i < |leaders| ==> groups[leaders[i]] == groups'[leaders[i]]
    ensures Flatten(groups, leaders) == Flatten(groups', leaders)
  {
    if leaders != [] {
      FlattenSame(groups, groups', leaders[..|leaders| - 1]);
    }
  }

  lemma DistinctPrefix(a: seq<int>, b: seq<int>)
    requires a <= b && Distinct(b)
    ensures Distinct(a)
  {
    forall i, j | 0 <= i < j < |a| ensures a[i] != a[j] {
      assert a[i] == b[i] && a[j] == b[j];
    }
  }

  /** The part before leader k and its group lie within the whole. */
  lemma {:induction false} FlattenPrefix(groups: map<int, seq<int>>, leaders: seq<int>, k: nat)
    requires k < |leaders| && Led(groups, leaders)
    ensures var before, g := Flatten(groups, leaders[..k]), groups[leaders[k]];
      && Flatten(groups, leaders[..k + 1]) == before + g
      && before + g <= Flatten(groups, leaders)
      && (k + 1 == |leaders| ==> before + g == Flatten(groups, leaders))
  {
    FlattenAppend(groups, leaders[..k], leaders[k]);
    assert leaders[..k] + [leaders[k]] == leaders[..k + 1];
    FlattenConcat(groups, leaders[..k + 1], leaders[k + 1..]);
    assert leaders[..k + 1] + leaders[k + 1..] == leaders;
  }

  // ---------------------------------------------------------------- opening

  datatype Counter<E> = Counter(name: E, id: int)

  function CounterOf<E>(c: Call<E>): seq<Counter<E>> {
    if c.Open? && c.id >= 0 then [Counter(c.event, c.id)] else []
  }

  /** The counters that the kernel granted in the first n calls, in order. */
  function Granted<E>(calls: seq<Call<E>>, n: nat): seq<Counter<E>>
    requires n <= |calls|
  {
    if n == 0 then [] else Granted(calls, n - 1) + CounterOf(calls[n - 1])
  }

  lemma {:induction false} GrantedBefore<E>(a: seq<Call<E>>, b: seq<Call<E>>, n: nat)
    requires n <= |a|
    ensures Granted(a + b, n) == Granted(a, n)
  {
    if n > 0 {
      GrantedBefore(a, b, n - 1);
    }
  }

  lemma {:induction false} GrantedConcat<E>(a: seq<Call<E>>, b: seq<Call<E>>, n: nat)
    requires n <= |b|
    ensures Granted(a + b, |a| + n) == Granted(a, |a|) + Granted(b, n)
  {
    if n == 0 {
      GrantedBefore(a, b, |a|);
      NothingAdded(Granted(a, |a|), Granted(b, n));
    } else {
      var all, m, first := a + b, |a| + n - 1, Granted(a, |a|);
      assert all[m] == b[n - 1];
      assert Granted(all, m) == first + Granted(b, n - 1) by {
        GrantedConcat(a, b, n - 1);
      }
      assert Granted(all, m + 1) == first + Granted(b, n) by {
        OneMoreGranted(all, m, b, n - 1, first);
      }
    }
  }

  lemma OneMoreGranted<E>(all: seq<Call<E>>, m: nat, b: seq<Call<E>>, n: nat, first: seq<Counter<E>>)
    requires m < |all| && n < |b| && all[m] == b[n] && Granted(all, m) == first + Granted(b, n)
    ensures Granted(all, m + 1) == first + Granted(b, n + 1)
  {
    SeqAssoc(first, Granted(b, n), CounterOf(b[n]));
  }

  lemma GrantedAll<E>(a: seq<Call<E>>, b: seq<Call<E>>)
    ensures Granted(a + b, |a + b|) == Granted(a, |a|) + Granted(b, |b|)
  {
    var n := |b|;
    assert |a + b| == |a| + n;
    GrantedConcat(a, b, n);
  }

  lemma GrantedAppend<E>(calls: seq<Call<E>>, c: Call<E>)
    ensures Granted(calls + [c], |calls| + 1) == Granted(calls, |calls|) + CounterOf(c)
  {
    GrantedBefore(calls, [c], |calls|);
  }

  ghost predicate Decides<E>(c: Call<E>, name: E) {
    c.Open? && c.event == name && (c.id >= 0 || c.group < 0)
  }

  /** The name was granted a descriptor, or refused one even as the leader of a new group. */
  ghost predicate Tried<E>(calls: seq<Call<E>>, name: E) {
    exists i :: 0 <= i < |calls| && Decides(calls[i], name)
  }

  /** A new group is only begun at the start or straight after a refusal. */
  ghost predicate SplitsOnRefusal<E>(calls: seq<Call<E>>) {
    forall i :: 0 < i < |calls| && calls[i].Open? && calls[i].group < 0 ==> Refused(calls[i - 1])
  }

  ghost predicate EnableFailed<E>(calls: seq<Call<E>>) {
    exists i :: 0 <= i < |calls| && calls[i].Enable? && !calls[i].ok
  }

  /** What a caller of Create can rely on, from the calls it made. */
  ghost predicate Created<E>(requested: seq<E>, usable: set<E>, calls: seq<Call<E>>,
                             names: seq<E>, ids: seq<int>) {
    if EnableFailed(calls) then names == [] && ids == []
    else
      && Lists(names, ids, Granted(calls, |calls|))
      && Listed(names, requested, |requested|, usable)
      && (|names| == K_MAX_COUNTERS || AllTried(requested, usable, |requested|, calls))
  }

  ghost predicate Lists<E>(names: seq<E>, ids: seq<int>, cs: seq<Counter<E>>) {
    && |names| == |ids| == |cs|
    && forall i :: 0 <= i < |cs| ==> cs[i].name == names[i] && cs[i].id == ids[i]
  }

  /** The names are the requested ones at increasing positions before upTo. */
  ghost predicate PickedAt<E>(names: seq<E>, requested: seq<E>, upTo: nat, at: seq<int>) {
    && |at| == |names| && upTo <= |requested|
    && (forall i :: 0 <= i < |at| ==> 0 <= at[i] < upTo && names[i] == requested[at[i]])
    && (forall i, j :: 0 <= i < j < |at| ==> at[i] < at[j])
  }

  /** Some of the requested names in their order, all of them events that exist. */
  ghost predicate Listed<E>(names: seq<E>, requested: seq<E>, upTo: nat, usable: set<E>) {
    && (forall i :: 0 <= i < |names| ==> names[i] in usable)
    && exists at :: PickedAt(names, requested, upTo, at)
  }

  lemma DistinctMore(s: seq<int>, x: int)
    requires Distinct(s) && x !in s
    ensures Distinct(s + [x])
  {
    forall i, j | 0 <= i < j < |s + [x]| ensures (s + [x])[i] != (s + [x])[j] {
      assert (s + [x])[i] == s[i] && s[i] in s;
    }
  }

  /** A new group behind the others. */
  lemma AlignedLeader(groups: map<int, seq<int>>, leaders: seq<int>, ids: seq<int>, id: int)
    requires Aligned(groups, leaders, ids) && id !in ids && id !in leaders
    ensures Aligned(groups[id := [id]], leaders + [id], ids + [id])
  {
    var groups' := groups[id := [id]];
    DistinctMore(ids, id);
    assert forall i :: 0 <= i < |leaders| ==> leaders[i] in leaders;
    FlattenSame(groups, groups', leaders);
    FlattenAppend(groups', leaders, id);
  }

  /** The last group grown by one. */
  lemma AlignedMember(groups: map<int, seq<int>>, init: seq<int>, last: int, ids: seq<int>, id: int)
    requires Aligned(groups, init + [last], ids) && Distinct(init + [last]) && id !in ids
    ensures last in groups && Aligned(groups[last := groups[last] + [id]], init + [last], ids + [id])
  {
    var leaders := init + [last];
    assert leaders[|init|] == last;
    var groups' := groups[last := groups[last] + [id]];
    DistinctMore(ids, id);
    forall i | 0 <= i < |init| ensures init[i] in groups && init[i] != last {
      assert leaders[i] == init[i];
    }
    FlattenSame(groups, groups', init);
    FlattenAppend(groups, init, last);
    FlattenAppend(groups', init, last);
    assert Flatten(groups, init) + (groups[last] + [id]) == ids + [id];
  }

  /** The calls made for one name: refused up to the last, which answered `id`. */
  ghost predicate Asked<E>(made: seq<Call<E>>, event: E, group: int, id: int) {
    && (forall i :: 0 <= i < |made| ==>
          && made[i].Open? && made[i].event == event && (made[i].group == group || made[i].group < 0)
          && (made[i].first <==> group < 0))
    && (forall i :: 0 <= i < |made| - 1 ==> Refused(made[i]))
    && (made != [] ==> made[0].group == group && (made[|made| - 1].id == id || (id < 0 && made[|made| - 1].id < 0)))
    && Granted(made, |made|) == if id >= 0 then [Counter(event, id)] else []
  }

  /** A system call with its retries: repeated as long as it is interrupted, five times at most. */
  ghost predicate IsRetried<E>(calls: seq<Call<E>>, group: int) {
    && 0 < |calls| <= 5
    && (forall i :: 0 <= i < |calls| ==> calls[i].Open? && calls[i].group == group)
    && (forall i :: 0 <= i < |calls| - 1 ==> Interrupted(calls[i]))
    && (|calls| == 5 || !Interrupted(calls[|calls| - 1]))
  }

  /** The calls for one name: in the current group, and as the leader of a new group exactly if the current
      group refused. */
  ghost predicate InTwoSteps<E>(calls: seq<Call<E>>, group: int) {
    exists k :: 0 < k <= |calls| && StepsAt(calls, group, k)
  }

  ghost predicate StepsAt<E>(calls: seq<Call<E>>, group: int, k: nat)
    requires 0 < k <= |calls|
  {
    && IsRetried(calls[..k], group)
    && (k < |calls| <==> group >= 0 && Refused(calls[k - 1]))
    && (k < |calls| ==> IsRetried(calls[k..], -1))
  }

  ghost predicate Retrying<E>(calls: seq<Call<E>>, group: int, again: bool) {
    && (forall i :: 0 <= i < |calls| ==> calls[i].Open? && calls[i].group == group)
    && (forall i :: 0 <= i < |calls| - 1 ==> Interrupted(calls[i]))
    && (calls != [] ==> (again <==> Interrupted(calls[|calls| - 1])))
  }

  lemma OneMoreTry<E>(calls: seq<Call<E>>, group: int, c: Call<E>)
    requires Retrying(calls, group, true) && c.Open? && c.group == group
    ensures Retrying(calls + [c], group, Interrupted(c))
  {
  }

  lemma OneStep<E>(calls: seq<Call<E>>, group: int)
    requires IsRetried(calls, group) && (group < 0 || !Refused(calls[|calls| - 1]))
    ensures InTwoSteps(calls, group)
  {
    assert calls[..|calls|] == calls;
    assert StepsAt(calls, group, |calls|);
  }

  lemma TwoSteps<E>(a: seq<Call<E>>, b: seq<Call<E>>, group: int)
    requires IsRetried(a, group) && group >= 0 && Refused(a[|a| - 1]) && IsRetried(b, -1)
    ensures InTwoSteps(a + b, group)
  {
    assert (a + b)[..|a|] == a && (a + b)[|a|..] == b;
    assert StepsAt(a + b, group, |a|);
  }

  lemma AskedMore<E>(made: seq<Call<E>>, event: E, group: int, groupId: int, was: int, id: int, interrupted: bool)
    requires Asked(made, event, group, was) && was < 0 && (made == [] ==> groupId == group)
    requires groupId == group || groupId < 0
    ensures Asked(made + [Open(event, groupId, id, group < 0, interrupted)], event, group, id)
  {
    var all := made + [Open(event, groupId, id, group < 0, interrupted)];
    GrantedAppend(made, all[|made|]);
    forall i | 0 <= i < |all| - 1 ensures Refused(all[i]) {
      assert all[i] == made[i];
    }
  }

  lemma SplitsMore<E>(calls: seq<Call<E>>, made: seq<Call<E>>, event: E, group: int, id: int)
    requires SplitsOnRefusal(calls) && Asked(made, event, group, id)
    requires group >= 0 || calls == [] || RefusedLeader(calls[|calls| - 1])
    ensures SplitsOnRefusal(calls + made)
  {
    var all := calls + made;
    forall i | 0 < i < |all| && all[i].Open? && all[i].group < 0 ensures Refused(all[i - 1]) {
      if i > |calls| {
        assert all[i - 1] == made[i - 1 - |calls|];
      } else if i == |calls| {
        assert all[i] == made[0];
      }
    }
  }

  predicate OnlyOpens<E>(calls: seq<Call<E>>) {
    forall i :: 0 <= i < |calls| ==> calls[i].Open?
  }

  function Elements(s: seq<int>): set<int> {
    set x | x in s
  }

  /** What the loop over the names keeps: `calls` are those made so far, for the first `upTo` names. */
  ghost predicate Opened<E>(requested: seq<E>, usable: set<E>, upTo: nat, calls: seq<Call<E>>,
                            names: seq<E>, ids: seq<int>)
    requires upTo <= |requested|
  {
    && Lists(names, ids, Granted(calls, |calls|)) && |names| <= K_MAX_COUNTERS
    && Listed(names, requested, upTo, usable)
    && SplitsOnRefusal(calls) && |calls| <= upTo * (2 * K_NR_OF_SYSCALL_RETRIES)
    && OnlyOpens(calls)
    && AllTried(requested, usable, upTo, calls)
  }

  /** What it keeps of the kernel, which was in the state (open, groups) before. */
  ghost predicate Grouped(open: set<int>, groups: map<int, seq<int>>, open': set<int>, groups': map<int, seq<int>>,
                          leaders: seq<int>, ids: seq<int>) {
    && Aligned(groups', leaders, ids) && Distinct(leaders)
    && OpenedOnly(open, open', leaders, ids) && GroupsKept(open, groups, groups', leaders)
  }

  ghost predicate OpenedOnly(open: set<int>, open': set<int>, leaders: seq<int>, ids: seq<int>) {
    open' == open + Elements(ids) && open !! Elements(ids) && Elements(leaders) <= Elements(ids)
  }

  ghost predicate GroupsKept(open: set<int>, groups: map<int, seq<int>>, groups': map<int, seq<int>>,
                             leaders: seq<int>) {
    && groups'.Keys == groups.Keys + Elements(leaders)
    && (forall lead :: lead in groups ==> lead in open && groups'[lead] == groups[lead])
  }

  lemma ListedMore<E>(names: seq<E>, requested: seq<E>, upTo: nat, usable: set<E>)
    requires upTo < |requested| && Listed(names, requested, upTo, usable)
    ensures Listed(names, requested, upTo + 1, usable)
    ensures requested[upTo] in usable ==> Listed(names + [requested[upTo]], requested, upTo + 1, usable)
  {
    var at :| PickedAt(names, requested, upTo, at);
    assert PickedAt(names, requested, upTo + 1, at);
    assert PickedAt(names + [requested[upTo]], requested, upTo + 1, at + [upTo]);
  }

  lemma GrantedMore<E>(calls: seq<Call<E>>, made: seq<Call<E>>, more: seq<Counter<E>>, names: seq<E>, ids: seq<int>)
    requires Granted(made, |made|) == more && Lists(names, ids, Granted(calls, |calls|))
    ensures more == [] ==> Lists(names, ids, Granted(calls + made, |calls + made|))
    ensures |more| == 1 ==>
      Lists(names + [more[0].name], ids + [more[0].id], Granted(calls + made, |calls + made|))
  {
    GrantedAll(calls, made);
    ListsMore(names, ids, Granted(calls, |calls|), more, Granted(calls + made, |calls + made|));
  }

  lemma ListsMore<E>(names: seq<E>, ids: seq<int>, cs: seq<Counter<E>>, more: seq<Counter<E>>,
                     all: seq<Counter<E>>)
    requires Lists(names, ids, cs) && all == cs + more
    ensures more == [] ==> Lists(names, ids, all)
    ensures |more| == 1 ==> Lists(names + [more[0].name], ids + [more[0].id], all)
  {
  }

  ghost predicate AllTried<E>(requested: seq<E>, usable: set<E>, upTo: nat, calls: seq<Call<E>>)
    requires upTo <= |requested|
  {
    forall i :: 0 <= i < upTo && requested[i] in usable ==> Tried(calls, requested[i])
  }

  lemma TriedInMore<E>(a: seq<Call<E>>, b: seq<Call<E>>, name: E)
    ensures Tried(a, name) || Tried(b, name) ==> Tried(a + b, name)
  {
    if i :| 0 <= i < |a| && Decides(a[i], name) {
      assert (a + b)[i] == a[i];
    }
    if i :| 0 <= i < |b| && Decides(b[i], name) {
      assert (a + b)[|a| + i] == b[i];
    }
  }

  lemma TriedMore<E>(requested: seq<E>, usable: set<E>, upTo: nat, calls: seq<Call<E>>, made: seq<Call<E>>)
    requires upTo < |requested| && AllTried(requested, usable, upTo, calls) && Tried(made, requested[upTo])
    ensures AllTried(requested, usable, upTo + 1, calls + made)
  {
    forall i | 0 <= i < upTo + 1 && requested[i] in usable
      ensures Tried(calls + made, requested[i])
    {
      if i < upTo {
        TriedInMore(calls, made, requested[i]);
      } else {
        TriedInMore(calls, made, requested[upTo]);
      }
    }
  }

  lemma OpenedSkip<E>(requested: seq<E>, usable: set<E>, upTo: nat, calls: seq<Call<E>>,
                      names: seq<E>, ids: seq<int>)
    requires upTo < |requested| && Opened(requested, usable, upTo, calls, names, ids)
    requires requested[upTo] !in usable
    ensures Opened(requested, usable, upTo + 1, calls, names, ids)
  {
    ListedMore(names, requested, upTo, usable);
  }

  lemma RefusedLast<E>(calls: seq<Call<E>>, made: seq<Call<E>>, event: E, group: int, id: int)
    requires Asked(made, event, group, id) && id < 0 && made != [] && made[|made| - 1].group < 0
    ensures RefusedLeader((calls + made)[|calls + made| - 1])
  {
    assert (calls + made)[|calls + made| - 1] == made[|made| - 1];
  }

  lemma NoGroupIsLast<E>(calls: seq<Call<E>>, made: seq<Call<E>>, event: E, group: int, id: int,
                         groupId: int, leaders: seq<int>)
    requires Asked(made, event, group, id) && id < 0 && made != [] && made[|made| - 1].group < 0 && groupId < 0
    ensures GroupIsLast(groupId, leaders, calls + made)
  {
    RefusedLast(calls, made, event, group, id);
  }

  lemma OpenedNames<E>(requested: seq<E>, usable: set<E>, upTo: nat, calls: seq<Call<E>>,
                       names: seq<E>, ids: seq<int>, made: seq<Call<E>>, group: int, id: int)
    requires upTo < |requested| && requested[upTo] in usable && |names| < K_MAX_COUNTERS
    requires Lists(names, ids, Granted(calls, |calls|)) && Listed(names, requested, upTo, usable)
    requires Asked(made, requested[upTo], group, id)
    ensures id >= 0 ==>
      && Lists(names + [requested[upTo]], ids + [id], Granted(calls + made, |calls + made|))
      && Listed(names + [requested[upTo]], requested, upTo + 1, usable)
    ensures id < 0 ==>
      && Lists(names, ids, Granted(calls + made, |calls + made|)) && Listed(names, requested, upTo + 1, usable)
  {
    ListedMore(names, requested, upTo, usable);
    AskedLists(calls, made, requested[upTo], group, id, names, ids);
  }

  lemma OpensMore<E>(calls: seq<Call<E>>, made: seq<Call<E>>, event: E, group: int, id: int)
    requires OnlyOpens(calls) && Asked(made, event, group, id)
    ensures OnlyOpens(calls + made)
  {
    forall i | 0 <= i < |calls + made| ensures (calls + made)[i].Open? {
      assert i >= |calls| ==> (calls + made)[i] == made[i - |calls|];
    }
  }

  lemma OpenedCalls<E>(calls: seq<Call<E>>, made: seq<Call<E>>, event: E, group: int, id: int, upTo: nat)
    requires SplitsOnRefusal(calls) && OnlyOpens(calls) && |calls| <= upTo * (2 * K_NR_OF_SYSCALL_RETRIES)
    requires Asked(made, event, group, id) && |made| <= 2 * K_NR_OF_SYSCALL_RETRIES
    requires group >= 0 || calls == [] || RefusedLeader(calls[|calls| - 1])
    ensures SplitsOnRefusal(calls + made) && OnlyOpens(calls + made)
    ensures |calls + made| <= (upTo + 1) * (2 * K_NR_OF_SYSCALL_RETRIES)
  {
    SplitsMore(calls, made, event, group, id);
    OpensMore(calls, made, event, group, id);
  }

  /** The record of one more name, which was granted a descriptor. */
  lemma OpenedMore<E>(requested: seq<E>, usable: set<E>, upTo: nat, calls: seq<Call<E>>,
                      names: seq<E>, ids: seq<int>, made: seq<Call<E>>, group: int, id: int)
    requires upTo < |requested| && Opened(requested, usable, upTo, calls, names, ids) && |names| < K_MAX_COUNTERS
    requires requested[upTo] in usable && id >= 0
    requires Asked(made, requested[upTo], group, id) && Tried(made, requested[upTo])
    requires |made| <= 2 * K_NR_OF_SYSCALL_RETRIES
    requires group >= 0 || calls == [] || RefusedLeader(calls[|calls| - 1])
    ensures Opened(requested, usable, upTo + 1, calls + made, names + [requested[upTo]], ids + [id])
  {
    OpenedNames(requested, usable, upTo, calls, names, ids, made, group, id);
    OpenedCalls(calls, made, requested[upTo], group, id, upTo);
    TriedMore(requested, usable, upTo, calls, made);
  }

  /** The record of one more name, which was refused even a group of its own. */
  lemma OpenedRefused<E>(requested: seq<E>, usable: set<E>, upTo: nat, calls: seq<Call<E>>,
                         names: seq<E>, ids: seq<int>, made: seq<Call<E>>, group: int, id: int)
    requires upTo < |requested| && Opened(requested, usable, upTo, calls, names, ids) && |names| < K_MAX_COUNTERS
    requires requested[upTo] in usable && id < 0
    requires Asked(made, requested[upTo], group, id) && Tried(made, requested[upTo])
    requires |made| <= 2 * K_NR_OF_SYSCALL_RETRIES
    requires group >= 0 || calls == [] || RefusedLeader(calls[|calls| - 1])
    ensures Opened(requested, usable, upTo + 1, calls + made, names, ids)
  {
    OpenedNames(requested, usable, upTo, calls, names, ids, made, group, id);
    OpenedCalls(calls, made, requested[upTo], group, id, upTo);
    TriedMore(requested, usable, upTo, calls, made);
  }

  lemma AskedLists<E>(calls: seq<Call<E>>, made: seq<Call<E>>, event: E, group: int, id: int,
                      names: seq<E>, ids: seq<int>)
    requires Asked(made, event, group, id) && Lists(names, ids, Granted(calls, |calls|))
    ensures id >= 0 ==> Lists(names + [event], ids + [id], Granted(calls + made, |calls + made|))
    ensures id < 0 ==> Lists(names, ids, Granted(calls + made, |calls + made|))
  {
    GrantedMore(calls, made, Granted(made, |made|), names, ids);
  }

  lemma AskedAgain<E>(before: seq<Call<E>>, made: seq<Call<E>>, event: E, group: int, groupId: int,
                      was: int, id: int, first: bool, interrupted: bool)
    requires Asked(before + made, event, group, was) && was < 0 && (before + made == [] ==> groupId == group)
    requires (groupId == group || groupId < 0) && (first <==> group < 0)
    ensures Asked(before + (made + [Open(event, groupId, id, first, interrupted)]), event, group, id)
  {
    AskedMore(before + made, event, group, groupId, was, id, interrupted);
    SeqAssoc(before, made, [Open(event, groupId, id, first, interrupted)]);
  }

  /** Two steps decide about a name, in ten calls at most, the last of which was refused as a leader if any. */
  lemma StepsDecide<E>(calls: seq<Call<E>>, event: E, group: int, id: int)
    requires Asked(calls, event, group, id) && InTwoSteps(calls, group)
    ensures Tried(calls, event) && 0 < |calls| <= 2 * K_NR_OF_SYSCALL_RETRIES
    ensures id < 0 ==> calls[|calls| - 1].Open? && calls[|calls| - 1].group < 0
  {
    var k :| 0 < k <= |calls| && StepsAt(calls, group, k);
    var last := calls[|calls| - 1];
    if k < |calls| {
      assert last == calls[k..][|calls| - k - 1];
    } else {
      assert last == calls[..k][k - 1];
    }
    assert Decides(last, event);
  }

  lemma ElementsMore(s: seq<int>, x: int)
    ensures Elements(s + [x]) == Elements(s) + {x}
    ensures forall d :: d in s <==> d in Elements(s)
  {
  }

  lemma OpenedOneMore(open: set<int>, open': set<int>, leaders: seq<int>, ids: seq<int>, id: int)
    requires OpenedOnly(open, open', leaders, ids) && id !in open'
    ensures id !in leaders && id !in ids
    ensures OpenedOnly(open, open' + {id}, leaders, ids + [id])
    ensures OpenedOnly(open, open' + {id}, leaders + [id], ids + [id])
  {
    ElementsMore(ids, id);
    ElementsMore(leaders, id);
  }

  lemma KeptWithLeader(open: set<int>, groups: map<int, seq<int>>, groups': map<int, seq<int>>,
                       leaders: seq<int>, id: int)
    requires GroupsKept(open, groups, groups', leaders) && id !in open
    ensures GroupsKept(open, groups, groups'[id := [id]], leaders + [id])
  {
    ElementsMore(leaders, id);
  }

  lemma KeptWithMember(open: set<int>, groups: map<int, seq<int>>, groups': map<int, seq<int>>,
                       leaders: seq<int>, lead: int, g: seq<int>)
    requires GroupsKept(open, groups, groups', leaders) && lead in Elements(leaders) && lead !in open
    ensures GroupsKept(open, groups, groups'[lead := g], leaders)
  {
  }

  lemma LeaderGrouped(open: set<int>, groups: map<int, seq<int>>, open': set<int>, groups': map<int, seq<int>>,
                      leaders: seq<int>, ids: seq<int>, id: int)
    requires Grouped(open, groups, open', groups', leaders, ids) && id !in open'
    ensures Grouped(open, groups, open' + {id}, groups'[id := [id]], leaders + [id], ids + [id])
  {
    OpenedOneMore(open, open', leaders, ids, id);
    AlignedLeader(groups', leaders, ids, id);
    DistinctMore(leaders, id);
    KeptWithLeader(open, groups, groups', leaders, id);
  }

  lemma MemberGrouped(open: set<int>, groups: map<int, seq<int>>, open': set<int>, groups': map<int, seq<int>>,
                      leaders: seq<int>, ids: seq<int>, id: int)
    requires Grouped(open, groups, open', groups', leaders, ids) && id !in open'
    requires leaders != [] && leaders[|leaders| - 1] >= 0
    ensures leaders[|leaders| - 1] in groups'
    ensures var group := leaders[|leaders| - 1];
      Grouped(open, groups, open' + {id}, groups'[group := groups'[group] + [id]], leaders, ids + [id])
  {
    OpenedOneMore(open, open', leaders, ids, id);
    var init, last := leaders[..|leaders| - 1], leaders[|leaders| - 1];
    assert init + [last] == leaders;
    AlignedMember(groups', init, last, ids, id);
    ElementsMore(init, last);
    KeptWithMember(open, groups, groups', leaders, last, groups'[last] + [id]);
  }

  /** Whatever a call for a descriptor answered: refused, granted as a leader, or granted in the group. */
  lemma CounterGrouped(open: set<int>, groups: map<int, seq<int>>, open': set<int>, groups': map<int, seq<int>>,
                       now: set<int>, groupsNow: map<int, seq<int>>, leaders: seq<int>, ids: seq<int>,
                       group: int, groupId: int, id: int)
    requires Grouped(open, groups, open', groups', leaders, ids)
    requires Grown(open', groups', now, groupsNow, group, groupId, id)
    requires group >= 0 ==> leaders != [] && group == leaders[|leaders| - 1]
    requires groupId == group || groupId == -1
    ensures Grouped(open, groups, now, groupsNow, if id >= 0 && groupId < 0 then leaders + [id] else leaders,
                    if id >= 0 then ids + [id] else ids)
  {
    if id >= 0 {
      if groupId < 0 {
        LeaderGrouped(open, groups, open', groups', leaders, ids, id);
      } else {
        MemberGrouped(open, groups, open', groups', leaders, ids, id);
      }
    }
  }

  lemma OpenedStart<E>(requested: seq<E>, usable: set<E>, open: set<int>, groups: map<int, seq<int>>)
    requires forall lead :: lead in groups ==> lead in open
    ensures Opened(requested, usable, 0, [], [], []) && Grouped(open, groups, open, groups, [], [])
  {
    assert PickedAt([], requested, 0, []);
    NoneGrouped(open, groups);
  }

  lemma TakenBack(a: set<int>, b: set<int>, x: set<int>, y: set<int>)
    requires a <= b && b !! y && x <= y
    ensures (a + x) - y == a
  {
  }

  lemma NothingLeft(open: set<int>, groups: map<int, seq<int>>, open': set<int>, groups': map<int, seq<int>>,
                    leaders: seq<int>, ids: seq<int>, groups'': map<int, seq<int>>)
    requires Grouped(open, groups, open', groups', leaders, ids)
    requires forall lead :: lead in groups ==> forall d :: d in groups[lead] ==> d in open
    requires groups''.Keys == groups'.Keys - Elements(ids)
    requires forall lead :: lead in groups'' && (forall d :: d in ids ==> d !in groups'[lead]) ==>
      groups''[lead] == groups'[lead]
    ensures open' - Elements(ids) == open && groups'' == groups
  {
    assert groups.Keys <= open by {
      forall lead | lead in groups.Keys ensures lead in open {
        assert lead in groups;
      }
    }
    TakenBack(groups.Keys, open, Elements(leaders), Elements(ids));
    forall lead | lead in groups ensures groups''[lead] == groups[lead] {
      forall d | d in ids ensures d !in groups'[lead] {
        assert d in Elements(ids);
      }
    }
  }

  lemma NoneGrouped(open: set<int>, groups: map<int, seq<int>>)
    requires forall lead :: lead in groups ==> lead in open
    ensures Grouped(open, groups, open, groups, [], [])
  {
  }

  lemma {:induction false} EnablesGrantNothing<E>(calls: seq<Call<E>>, n: nat)
    requires n <= |calls| && forall i :: 0 <= i < |calls| ==> calls[i].Enable?
    ensures Granted(calls, n) == []
  {
    if n > 0 {
      EnablesGrantNothing(calls, n - 1);
    }
  }

  lemma EnablesKeepOrder<E>(calls: seq<Call<E>>, enables: seq<Call<E>>)
    requires SplitsOnRefusal(calls)
    requires forall i :: 0 <= i < |enables| ==> enables[i].Enable?
    ensures SplitsOnRefusal(calls + enables)
  {
    var all := calls + enables;
    forall i | |calls| <= i < |all| ensures all[i].Enable? {
      assert all[i] == enables[i - |calls|];
    }
  }

  lemma NothingAdded<T>(a: seq<T>, b: seq<T>)
    requires b == []
    ensures a + b == a
  {
  }

  lemma EnablesKeepGranted<E>(calls: seq<Call<E>>, enables: seq<Call<E>>)
    requires forall i :: 0 <= i < |enables| ==> enables[i].Enable?
    ensures Granted(calls + enables, |calls + enables|) == Granted(calls, |calls|)
  {
    EnablesGrantNothing(enables, |enables|);
    GrantedAll(calls, enables);
    NothingAdded(Granted(calls, |calls|), Granted(enables, |enables|));
  }

  /** The enabling calls settle whether anything is created, and change nothing else. */
  lemma CreatedWhenEnabled<E>(requested: seq<E>, usable: set<E>, calls: seq<Call<E>>, enables: seq<Call<E>>,
                              names: seq<E>, ids: seq<int>, upTo: nat, ok: bool)
    requires upTo <= |requested| && Opened(requested, usable, upTo, calls, names, ids)
    requires upTo == |requested| || |names| == K_MAX_COUNTERS
    requires forall i :: 0 <= i < |enables| ==> enables[i].Enable? && (enables[i].ok <==> i < |enables| - 1 || ok)
    requires !ok ==> enables != []
    ensures if ok then Created(requested, usable, calls + enables, names, ids)
            else Created(requested, usable, calls + enables, [], [])
  {
    var all := calls + enables;
    if !ok {
      assert all[|all| - 1] == enables[|enables| - 1];
      assert EnableFailed(all);
    } else {
      NoneFailed(calls, enables);
      EnablesKeepGranted(calls, enables);
      ListedLonger(names, requested, upTo, usable);
      if |names| < K_MAX_COUNTERS {
        TriedLonger(requested, usable, upTo, calls, enables);
      }
    }
  }

  lemma NoneFailed<E>(calls: seq<Call<E>>, enables: seq<Call<E>>)
    requires OnlyOpens(calls) && forall i :: 0 <= i < |enables| ==> enables[i].Enable? && enables[i].ok
    ensures !EnableFailed(calls + enables)
  {
    var all := calls + enables;
    forall i | 0 <= i < |all| ensures all[i].Enable? ==> all[i].ok {
      assert i >= |calls| ==> all[i] == enables[i - |calls|];
    }
  }

  lemma ListedLonger<E>(names: seq<E>, requested: seq<E>, upTo: nat, usable: set<E>)
    requires upTo <= |requested| && Listed(names, requested, upTo, usable)
    ensures Listed(names, requested, |requested|, usable)
  {
    var at :| PickedAt(names, requested, upTo, at);
    assert PickedAt(names, requested, |requested|, at);
  }

  lemma TriedLonger<E>(requested: seq<E>, usable: set<E>, upTo: nat, calls: seq<Call<E>>, more: seq<Call<E>>)
    requires upTo <= |requested| && AllTried(requested, usable, upTo, calls)
    ensures AllTried(requested, usable, upTo, calls + more)
  {
    forall i | 0 <= i < upTo && requested[i] in usable ensures Tried(calls + more, requested[i]) {
      TriedInMore(calls, more, requested[i]);
    }
  }

  lemma SeqAssoc<T>(a: seq<T>, b: seq<T>, c: seq<T>)
    ensures (a + b) + c == a + (b + c)
  {
  }

  /** The current group is the last leader's, or there is none since a refusal. */
  ghost predicate GroupIsLast<E>(group: int, leaders: seq<int>, made: seq<Call<E>>) {
    if group >= 0 then leaders != [] && group == leaders[|leaders| - 1]
    else made == [] || RefusedLeader(made[|made| - 1])
  }

  // ---------------------------------------------------------------- the attributes of a leader

  /** The calls made for the name at a position of the request, with the group that was current when it was asked,
      and the answer. */
  datatype Round<E> = Round(at: nat, event: E, group: int, calls: seq<Call<E>>, id: int)

  function AllCalls<E>(rounds: seq<Round<E>>): seq<Call<E>> {
    if rounds == [] then [] else AllCalls(rounds[..|rounds| - 1]) + rounds[|rounds| - 1].calls
  }

  /** A group is current after these rounds: the last name was granted a descriptor. */
  predicate GroupIsCurrent<E>(rounds: seq<Round<E>>) {
    rounds != [] && rounds[|rounds| - 1].id >= 0
  }

  /** Every round asks for its name, in a group exactly if one is current. */
  ghost predicate RoundsOk<E>(rounds: seq<Round<E>>) {
    forall i :: 0 <= i < |rounds| ==> RoundOk(rounds, i)
  }

  /** The calls are those made for one name. */
  ghost predicate IsAsked<E>(r: Round<E>) {
    Asked(r.calls, r.event, r.group, r.id) && r.calls != [] && InTwoSteps(r.calls, r.group)
  }

  ghost predicate RoundOk<E>(rounds: seq<Round<E>>, i: nat)
    requires i < |rounds|
  {
    && IsAsked(rounds[i])
    && (rounds[i].group >= 0 <==> i > 0 && rounds[i - 1].id >= 0)
  }

  /** The rounds account for all calls and for the current group. */
  ghost predicate Traced<E>(rounds: seq<Round<E>>, calls: seq<Call<E>>, group: int) {
    RoundsOk(rounds) && calls == AllCalls(rounds) && (group >= 0 <==> GroupIsCurrent(rounds))
  }

  /** Every round asks for the usable name at its position in the request, and no position is asked twice. */
  ghost predicate AskedFor<E>(rounds: seq<Round<E>>, requested: seq<E>, usable: set<E>, upTo: nat) {
    && (forall i :: 0 <= i < |rounds| ==> AsksFor(rounds[i], requested, usable, upTo))
    && (forall i, j :: 0 <= i < j < |rounds| ==> AsksEarlier(rounds[i], rounds[j]))
  }

  ghost predicate AsksFor<E>(r: Round<E>, requested: seq<E>, usable: set<E>, upTo: nat) {
    r.at < upTo && r.at < |requested| && r.event == requested[r.at] && r.event in usable
  }

  predicate AsksEarlier<E>(r: Round<E>, s: Round<E>) {
    r.at < s.at
  }

  lemma AskedForMore<E>(rounds: seq<Round<E>>, r: Round<E>, requested: seq<E>, usable: set<E>, upTo: nat)
    requires AskedFor(rounds, requested, usable, upTo)
    ensures AskedFor(rounds, requested, usable, upTo + 1)
    ensures upTo < |requested| && r.at == upTo && r.event == requested[upTo] && r.event in usable ==>
      AskedFor(rounds + [r], requested, usable, upTo + 1)
  {
    forall i | 0 <= i < |rounds|
      ensures AsksFor(rounds[i], requested, usable, upTo + 1) && (r.at == upTo ==> AsksEarlier(rounds[i], r))
    {
      assert AsksFor(rounds[i], requested, usable, upTo);
    }
  }

  /** All that the loop over the names keeps about calls, names and the current group. */
  ghost predicate Recorded<E>(requested: seq<E>, usable: set<E>, upTo: nat, calls: seq<Call<E>>,
                              names: seq<E>, ids: seq<int>, rounds: seq<Round<E>>, group: int, leaders: seq<int>)
    requires upTo <= |requested|
  {
    && Opened(requested, usable, upTo, calls, names, ids)
    && Traced(rounds, calls, group) && AskedFor(rounds, requested, usable, upTo)
    && GroupIsLast(group, leaders, calls)
  }

  lemma RecordedStart<E>(requested: seq<E>, usable: set<E>, open: set<int>, groups: map<int, seq<int>>, calls: seq<Call<E>>,
                         names: seq<E>, ids: seq<int>, rounds: seq<Round<E>>, leaders: seq<int>, upTo: nat)
    requires forall lead :: lead in groups ==> lead in open
    requires calls == [] && names == [] && ids == [] && rounds == [] && leaders == [] && upTo == 0
    ensures Recorded(requested, usable, upTo, calls, names, ids, rounds, -1, leaders)
    ensures Grouped(open, groups, open, groups, leaders, ids)
  {
    OpenedStart(requested, usable, open, groups);
  }

  lemma RecordedSkip<E>(requested: seq<E>, usable: set<E>, upTo: nat, calls: seq<Call<E>>,
                        names: seq<E>, ids: seq<int>, rounds: seq<Round<E>>, group: int, leaders: seq<int>)
    requires upTo < |requested| && requested[upTo] !in usable
    requires Recorded(requested, usable, upTo, calls, names, ids, rounds, group, leaders)
    ensures Recorded(requested, usable, upTo + 1, calls, names, ids, rounds, group, leaders)
  {
    OpenedSkip(requested, usable, upTo, calls, names, ids);
  }

  /** A round that granted a descriptor. */
  lemma RecordedGrant<E>(requested: seq<E>, usable: set<E>, upTo: nat, calls: seq<Call<E>>, names: seq<E>, ids: seq<int>,
                         rounds: seq<Round<E>>, leaders: seq<int>, r: Round<E>, leaders': seq<int>, groupId: int)
    requires upTo < |requested| && requested[upTo] in usable && |names| < K_MAX_COUNTERS
    requires Recorded(requested, usable, upTo, calls, names, ids, rounds, r.group, leaders)
    requires r.at == upTo && r.event == requested[upTo] && r.id >= 0
    requires Asked(r.calls, r.event, r.group, r.id) && InTwoSteps(r.calls, r.group)
    requires groupId >= 0 && leaders' != [] && groupId == leaders'[|leaders'| - 1]
    ensures Recorded(requested, usable, upTo + 1, calls + r.calls, names + [r.event], ids + [r.id], rounds + [r],
                     groupId, leaders')
  {
    StepsDecide(r.calls, r.event, r.group, r.id);
    OpenedMore(requested, usable, upTo, calls, names, ids, r.calls, r.group, r.id);
    TracedMore(rounds, calls, r.group, r, groupId);
    AskedForMore(rounds, r, requested, usable, upTo);
  }

  /** A round that was refused. */
  lemma RecordedRefusal<E>(requested: seq<E>, usable: set<E>, upTo: nat, calls: seq<Call<E>>, names: seq<E>, ids: seq<int>,
                           rounds: seq<Round<E>>, leaders: seq<int>, r: Round<E>, groupId: int)
    requires upTo < |requested| && requested[upTo] in usable && |names| < K_MAX_COUNTERS
    requires Recorded(requested, usable, upTo, calls, names, ids, rounds, r.group, leaders)
    requires r.at == upTo && r.event == requested[upTo] && r.id < 0 && groupId < 0
    requires Asked(r.calls, r.event, r.group, r.id) && InTwoSteps(r.calls, r.group)
    ensures Recorded(requested, usable, upTo + 1, calls + r.calls, names, ids, rounds + [r], groupId, leaders)
  {
    StepsDecide(r.calls, r.event, r.group, r.id);
    assert Opened(requested, usable, upTo + 1, calls + r.calls, names, ids) by {
      OpenedRefused(requested, usable, upTo, calls, names, ids, r.calls, r.group, r.id);
    }
    assert Traced(rounds + [r], calls + r.calls, groupId) by {
      TracedMore(rounds, calls, r.group, r, groupId);
    }
    AskedForMore(rounds, r, requested, usable, upTo);
    NoGroupIsLast(calls, r.calls, r.event, r.group, r.id, groupId, leaders);
  }

  lemma RoundsShorter<E>(rounds: seq<Round<E>>, n: nat)
    requires RoundsOk(rounds) && n <= |rounds|
    ensures RoundsOk(rounds[..n])
  {
    forall i | 0 <= i < n ensures RoundOk(rounds[..n], i) {
      assert RoundOk(rounds, i);
    }
  }

  lemma RoundsMore<E>(rounds: seq<Round<E>>, r: Round<E>)
    requires RoundsOk(rounds) && IsAsked(r)
    requires r.group >= 0 <==> GroupIsCurrent(rounds)
    ensures RoundsOk(rounds + [r]) && AllCalls(rounds + [r]) == AllCalls(rounds) + r.calls
  {
    var all := rounds + [r];
    assert all[..|rounds|] == rounds;
    forall i | 0 <= i < |all| ensures RoundOk(all, i) {
      if i < |rounds| {
        assert RoundOk(rounds, i);
        assert all[i] == rounds[i] && (i > 0 ==> all[i - 1] == rounds[i - 1]);
      }
    }
  }

  lemma TracedMore<E>(rounds: seq<Round<E>>, calls: seq<Call<E>>, group: int, r: Round<E>, groupId: int)
    requires Traced(rounds, calls, group) && r.group == group && (groupId >= 0 <==> r.id >= 0)
    requires IsAsked(r)
    ensures Traced(rounds + [r], calls + r.calls, groupId)
  {
    RoundsMore(rounds, r);
  }

  /** Every call belongs to a round, and has the attributes of a first descriptor if and only if no group was
      current when the name of that round was asked. */
  lemma {:induction false} AttributesExactlyWhen<E>(rounds: seq<Round<E>>, p: nat) returns (i: nat, j: nat)
    requires RoundsOk(rounds) && p < |AllCalls(rounds)|
    ensures i < |rounds| && j < |rounds[i].calls| && AllCalls(rounds)[p] == rounds[i].calls[j]
    ensures AllCalls(rounds)[p].Open?
    ensures AllCalls(rounds)[p].first <==> !GroupIsCurrent(rounds[..i])
  {
    i, j := RoundOfCall(rounds, p);
    assert RoundOk(rounds, i);
    assert i > 0 ==> rounds[..i][i - 1] == rounds[i - 1];
  }

  lemma {:induction false} RoundOfCall<E>(rounds: seq<Round<E>>, p: nat) returns (i: nat, j: nat)
    requires p < |AllCalls(rounds)|
    ensures i < |rounds| && j < |rounds[i].calls| && AllCalls(rounds)[p] == rounds[i].calls[j]
  {
    var last := |rounds| - 1;
    var before := AllCalls(rounds[..last]);
    if p < |before| {
      i, j := RoundOfCall(rounds[..last], p);
    } else {
      i, j := last, p - |before|;
    }
  }

  /** So a leader that is opened because the current group refused the name has none of them, at whatever retry. */
  lemma RetriedLeaderLacksThem<E>(rounds: seq<Round<E>>, i: nat, j: nat)
    requires RoundsOk(rounds) && i < |rounds| && j < |rounds[i].calls|
    requires GroupIsCurrent(rounds[..i]) && rounds[i].calls[j].Open? && rounds[i].calls[j].group < 0
    ensures j > 0 && Refused(rounds[i].calls[0]) && rounds[i].calls[0].group >= 0 && !rounds[i].calls[j].first
  {
    assert RoundOk(rounds, i);
    assert rounds[..i][i - 1] == rounds[i - 1];
  }

  lemma GrantedAtOnce<E>(a: E, id: int)
    requires id >= 0
    ensures var calls := [Open(a, -1, id, true, false)];
      Asked(calls, a, -1, id) && InTwoSteps(calls, -1)
  {
    var calls := [Open(a, -1, id, true, false)];
    AskedMore([], a, -1, -1, -1, id, false);
    assert [] + calls == calls;
    OneStep(calls, -1);
  }

  lemma GrantedAtTheThirdTry<E>(b: E, group: int, id: int)
    requires group >= 0 && id >= 0
    ensures var calls := [Open(b, group, -1, false, false), Open(b, -1, -1, false, true), Open(b, -1, id, false, false)];
      Asked(calls, b, group, id) && InTwoSteps(calls, group)
  {
    var x, y, z := Open(b, group, -1, false, false), Open(b, -1, -1, false, true), Open(b, -1, id, false, false);
    AskedThrice(b, group, x, y, z);
    assert [x] + [y, z] == [x, y, z];
    TwoSteps([x], [y, z], group);
  }

  lemma AskedThrice<E>(b: E, group: int, x: Call<E>, y: Call<E>, z: Call<E>)
    requires group >= 0 && x == Open(b, group, -1, false, false) && y == Open(b, -1, -1, false, true)
    requires z.Open? && z.id >= 0 && z == Open(b, -1, z.id, false, false)
    ensures Asked([x, y, z], b, group, z.id)
  {
    AskedMore([], b, group, group, -1, -1, false);
    assert [] + [x] == [x];
    AskedMore([x], b, group, -1, -1, -1, true);
    assert [x] + [y] == [x, y];
    AskedMore([x, y], b, group, -1, -1, z.id, false);
    assert [x, y] + [z] == [x, y, z];
  }

  /** Two names: the second is refused by the group of the first, then interrupted, then granted a group of its
      own, whose leader is neither disabled nor pinned. */
  lemma RetriedLeader<E>(a: E, b: E) returns (rounds: seq<Round<E>>)
    ensures RoundsOk(rounds) && AskedFor(rounds, [a, b], {a, b}, 2)
    ensures AllCalls(rounds) == [Open(a, -1, 5, true, false), Open(b, 5, -1, false, false),
                                 Open(b, -1, -1, false, true), Open(b, -1, 6, false, false)]
  {
    var w, x := Open(a, -1, 5, true, false), Open(b, 5, -1, false, false);
    var y, z := Open(b, -1, -1, false, true), Open(b, -1, 6, false, false);
    var first, second := Round(0, a, -1, [w], 5), Round(1, b, 5, [x, y, z], 6);
    GrantedAtOnce(a, 5);
    GrantedAtTheThirdTry(b, 5, 6);
    TwoRounds(first, second);
    rounds := [first, second];
    assert AsksFor(first, [a, b], {a, b}, 2) && AsksFor(second, [a, b], {a, b}, 2) && AsksEarlier(first, second);
  }

  lemma TwoRounds<E>(r: Round<E>, s: Round<E>)
    requires IsAsked(r) && r.group < 0 && r.id >= 0 && IsAsked(s) && s.group >= 0
    ensures RoundsOk([r, s]) && AllCalls([r, s]) == r.calls + s.calls
  {
    var none: seq<Round<E>> := [];
    RoundsMore(none, r);
    assert none + [r] == [r];
    NothingBefore(AllCalls(none), r.calls);
    RoundsMore([r], s);
    assert [r] + [s] == [r, s];
  }

  lemma NothingBefore<T>(a: seq<T>, b: seq<T>)
    requires a == []
    ensures a + b == b
  {
  }
}
