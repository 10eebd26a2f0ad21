/** The kernel as performance counting sees it: descriptors in groups, opened, enabled, read and closed.
    What it answers is arbitrary; what an answer means is fixed. */
module PerfKernel {

  /** A call and its answer; `id` is negative when the descriptor was refused, and `interrupted` tells whether that
      was because the call was interrupted. `first` stands for the attributes
      disabled and pinned, which are meant for the first descriptor of a group. */
  datatype Call<E> =
    | Open(event: E, group: int, id: int, first: bool, interrupted: bool)
    | Enable(lead: int, ok: bool)

  predicate Refused<E>(c: Call<E>) {
    c.Open? && c.id < 0
  }

  /** Refused for no other reason than an interruption. */
  predicate Interrupted<E>(c: Call<E>) {
    c.Open? && c.id < 0 && c.interrupted
  }

  function Without(g: seq<int>, id: int): (r: seq<int>)
    ensures id !in g ==> r == g
    ensures forall x :: x in r <==> x in g && x != id
  {
    if g == [] then []
    else
      var init, last := g[..|g| - 1], g[|g| - 1];
      assert g == init + [last];
      if last == id then Without(init, id) else Without(init, id) + [last]
  }

  /** The word is the count last reported for the descriptor. */
  predicate Shows(word: int, reported: map<int, int>, d: int) {
    d in reported && word == reported[d]
  }

  /** Refused even a group of its own. */
  predicate RefusedLeader<E>(c: Call<E>) {
    Refused(c) && c.group < 0
  }

  /** The kernel before and after a descriptor is granted, as a leader or into the group; or refused. */
  ghost predicate Grown(open: set<int>, groups: map<int, seq<int>>, open': set<int>, groups': map<int, seq<int>>,
                        group: int, groupId: int, id: int) {
    if id < 0 then open' == open && groups' == groups
    else
      && id !in open && open' == open + {id}
      && if groupId < 0 then groups' == groups[id := [id]]
         else group in groups && groups' == groups[group := groups[group] + [id]]
  }

  class Kernel {
    /** Open descriptors, and for every group leader its group in the order of opening. */
    var open: set<int>
    var groups: map<int, seq<int>>
    /** The count last reported for a descriptor. */
    var reported: map<int, int>
    /** The leaders whose reads fail or hit the end of file at present. */
    var failing: set<int>
    var calls: seq<Call<string>>

    ghost predicate Valid()
      reads this
    {
      && (forall d :: d in open ==> d >= 0)
      && forall lead :: lead in groups ==>
        lead in open && |groups[lead]| > 0 && groups[lead][0] == lead && forall d :: d in groups[lead] ==> d in open
    }

    constructor (ids: set<int>)
      requires forall d :: d in ids ==> d >= 0
      ensures Valid() && open == ids && groups == map[] && calls == []
    {
      open, groups, reported, calls := ids, map[], map[], [];
    }

    /** perf_event_open: a new descriptor that leads a group or joins one, or a refusal. */
    method PerfEventOpen(event: string, group: int, first: bool) returns (id: int, interrupted: bool)
      requires Valid() && (group < 0 || group in groups)
      modifies this`open, this`groups, this`calls
      ensures Valid() && calls == old(calls) + [Open(event, group, id, first, interrupted)]
      ensures Grown(old(open), old(groups), open, groups, group, group, id)
    {
      id := *;
      interrupted := *;
      if id in open || id < 0 {
        id := -1;
      } else {
        open := open + {id};
        groups := if group < 0 then groups[id := [id]] else groups[group := groups[group] + [id]];
      }
      calls := calls + [Open(event, group, id, first, interrupted)];
    }

    /** ioctl(PERF_EVENT_IOC_ENABLE). */
    method EnableGroup(lead: int) returns (ok: bool)
      modifies this`calls
      ensures calls == old(calls) + [Enable(lead, ok)]
    {
      ok := *;
      calls := calls + [Enable(lead, ok)];
    }

    /** close: the descriptor leaves its group, and a group goes with its leader. */
    method Close(id: int)
      requires Valid()
      modifies this`open, this`groups
      ensures Valid() && open == old(open) - {id}
      ensures groups.Keys == old(groups).Keys - {id}
      ensures forall lead :: lead in groups ==> groups[lead] == Without(old(groups)[lead], id)
    {
      open := open - {id};
      groups := map lead | lead in groups && lead != id :: Without(groups[lead], id);
      forall lead | lead in groups ensures groups[lead] != [] && groups[lead][0] == lead {
        LeaderStays(old(groups)[lead], id);
      }
    }

    /** read on a leader, in words: the number of counters of the group, then their counts in order.
        Fails when the room does not hold all of that. */
    method Read(lead: int, buffer: array<int>, pos: nat, size: nat) returns (words: int)
      requires lead in groups && pos + size <= buffer.Length
      modifies buffer, this`reported
      ensures lead in failing || size < 1 + |groups[lead]| ==>
        words <= 0 && buffer[..] == old(buffer[..]) && reported == old(reported)
      ensures !(lead in failing || size < 1 + |groups[lead]|) ==>
        && words == 1 + |groups[lead]|
        && buffer[pos] == |groups[lead]|
        && (forall p :: pos < p <= pos + |groups[lead]| ==>
              Shows(buffer[p], reported, groups[lead][p - pos - 1]))
        && (forall i :: 0 <= i < pos ==> buffer[i] == old(buffer[i]))
        && (forall d :: d in old(reported) && d !in groups[lead] ==>
              d in reported && reported[d] == old(reported)[d])
    {
      var g := groups[lead];
      if lead in failing || size < 1 + |g| {
        words := *;
        words := if words < 0 then -1 else 0;
        return;
      }
      buffer[pos] := |g|;
      var now: map<int, int> := *;
      var i := 0;
      while i < |g|
        invariant 0 <= i <= |g|
        invariant reported == old(reported) && buffer[pos] == |g|
        invariant forall p :: pos < p <= pos + i ==>
          buffer[p] == if g[p - pos - 1] in now then now[g[p - pos - 1]] else 0
        invariant forall j :: 0 <= j < pos ==> buffer[j] == old(buffer[j])
      {
        buffer[pos + 1 + i] := if g[i] in now then now[g[i]] else 0;
        i := i + 1;
      }
      var counts := map d | d in g :: if d in now then now[d] else 0;
      reported := reported + counts;
      words := 1 + |g|;
    }
  }

  lemma LeaderStays(g: seq<int>, id: int)
    requires g != [] && g[0] != id
    ensures Without(g, id) != [] && Without(g, id)[0] == g[0]
  {
    if |g| > 1 {
      LeaderStays(g[..|g| - 1], id);
    }
  }
}
