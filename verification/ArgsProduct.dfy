/** Cartesian products of argument lists by an in-place mixed-radix odometer
    (google_benchmark/src/benchmark_register.cc). */
module ArgsProduct {
  import opened Sums
  import opened Ranges

  type Lists = seq<seq<int>>

  predicate NoneEmpty(ls: Lists) {
    forall j :: 0 <= j < |ls| ==> |ls[j]| > 0
  }

  function Times(n: nat, q: nat): nat {
    n * q
  }

  /** The number of rows. */
  function Prod(ls: Lists): nat {
    if ls == [] then 1 else Times(|ls[0]|, Prod(ls[1..]))
  }

  predicate IsIndex(d: seq<nat>, ls: Lists) {
    |d| == |ls| && forall j :: 0 <= j < |d| ==> d[j] < |ls[j]|
  }

  /** The row that an index tuple selects. */
  function Row(d: seq<nat>, ls: Lists): (r: seq<int>)
    requires IsIndex(d, ls)
    ensures |r| == |ls| && forall j :: 0 <= j < |ls| ==> r[j] == ls[j][d[j]]
  {
    seq(|ls|, j requires 0 <= j < |ls| => ls[j][d[j]])
  }

  /** The number that an index tuple writes in the mixed radix of the list lengths, lowest digit first. */
  function Position(d: seq<nat>, ls: Lists): nat
    requires IsIndex(d, ls)
  {
    if ls == [] then 0 else d[0] + Times(|ls[0]|, Position(d[1..], ls[1..]))
  }

  /** One turn of the odometer. */
  function Turn(d: seq<nat>, ls: Lists): (r: seq<nat>)
    requires IsIndex(d, ls)
    ensures IsIndex(r, ls)
  {
    if ls == [] then []
    else if d[0] + 1 < |ls[0]| then [d[0] + 1] + d[1..]
    else [0] + Turn(d[1..], ls[1..])
  }

  function Zeros(n: nat): (d: seq<nat>)
    ensures |d| == n && forall j :: 0 <= j < n ==> d[j] == 0
  {
    seq(n, _ => 0)
  }

  /** The odometer after i turns. */
  function Odometer(i: nat, ls: Lists): (d: seq<nat>)
    requires NoneEmpty(ls)
    ensures IsIndex(d, ls)
  {
    if i == 0 then Zeros(|ls|) else Turn(Odometer(i - 1, ls), ls)
  }

  // ---------------------------------------------------------------- arithmetic

  lemma TimesMono(n: nat, a: nat, b: nat)
    requires a <= b
    ensures Times(n, a) <= Times(n, b)
  {
    assert n * (b - a) >= 0;
    assert n * b == n * a + n * (b - a);
  }

  lemma TimesSucc(n: nat, q: nat)
    ensures Times(n, q + 1) == Times(n, q) + n
  {
  }

  /** Quotient and remainder by n are unique. */
  lemma SplitUnique(n: nat, r: nat, q: nat, r': nat, q': nat)
    requires r < n && r' < n && r + Times(n, q) == r' + Times(n, q')
    ensures r == r' && q == q'
  {
    TimesSucc(n, q);
    TimesSucc(n, q');
    if q < q' {
      TimesMono(n, q + 1, q');
    } else if q' < q {
      TimesMono(n, q' + 1, q);
    }
  }

  lemma SplitDivMod(n: nat, r: nat, q: nat)
    requires r < n
    ensures (r + Times(n, q)) / n == q && (r + Times(n, q)) % n == r
  {
    var i := r + Times(n, q);
    assert i == i % n + Times(n, i / n);
    SplitUnique(n, r, q, i % n, i / n);
  }

  // ---------------------------------------------------------------- counting

  lemma {:induction false} PositionBelow(d: seq<nat>, ls: Lists)
    requires IsIndex(d, ls)
    ensures Position(d, ls) < Prod(ls)
  {
    if ls != [] {
      var q := Position(d[1..], ls[1..]);
      PositionBelow(d[1..], ls[1..]);
      TimesMono(|ls[0]|, q + 1, Prod(ls[1..]));
      TimesSucc(|ls[0]|, q);
    }
  }

  /** Different index tuples have different positions. */
  lemma {:induction false} PositionInjective(d: seq<nat>, e: seq<nat>, ls: Lists)
    requires IsIndex(d, ls) && IsIndex(e, ls) && Position(d, ls) == Position(e, ls)
    ensures d == e
  {
    if ls != [] {
      SplitUnique(|ls[0]|, d[0], Position(d[1..], ls[1..]), e[0], Position(e[1..], ls[1..]));
      PositionInjective(d[1..], e[1..], ls[1..]);
      assert d == [d[0]] + d[1..] && e == [e[0]] + e[1..];
    }
  }

  /** A turn counts one further, and wraps around to 0. */
  lemma {:induction false} TurnCounts(d: seq<nat>, ls: Lists)
    requires IsIndex(d, ls)
    ensures Position(Turn(d, ls), ls) == if Position(d, ls) + 1 < Prod(ls) then Position(d, ls) + 1 else 0
  {
    PositionBelow(d, ls);
    if ls != [] {
      var n, q, p := |ls[0]|, Position(d[1..], ls[1..]), Prod(ls[1..]);
      var r := Turn(d, ls);
      PositionBelow(d[1..], ls[1..]);
      TimesSucc(n, q);
      TimesMono(n, q + 1, p);
      if d[0] + 1 < n {
        assert r[1..] == d[1..];
      } else {
        TurnCounts(d[1..], ls[1..]);
        assert r[1..] == Turn(d[1..], ls[1..]);
        if q + 1 < p {
          TimesMono(n, q + 2, p);
          TimesSucc(n, q + 1);
        }
      }
    }
  }

  lemma {:induction false} ZeroPosition(ls: Lists)
    requires NoneEmpty(ls)
    ensures Position(Zeros(|ls|), ls) == 0 < Prod(ls)
  {
    PositionBelow(Zeros(|ls|), ls);
    if ls != [] {
      assert Zeros(|ls|)[1..] == Zeros(|ls[1..]|);
      ZeroPosition(ls[1..]);
    }
  }

  /** After i turns the odometer shows i, and after Prod(ls) turns it is back at zero. */
  lemma {:induction false} OdometerShows(i: nat, ls: Lists)
    requires NoneEmpty(ls) && i <= Prod(ls)
    ensures Position(Odometer(i, ls), ls) == if i < Prod(ls) then i else 0
    ensures i == Prod(ls) ==> Odometer(i, ls) == Zeros(|ls|)
  {
    ZeroPosition(ls);
    if i > 0 {
      OdometerShows(i - 1, ls);
      TurnCounts(Odometer(i - 1, ls), ls);
    }
    if i == Prod(ls) {
      PositionInjective(Odometer(i, ls), Zeros(|ls|), ls);
    }
  }

  /** Digit j is (position / product of the earlier lengths) mod the length of list j. */
  lemma {:induction false} DigitFormula(d: seq<nat>, ls: Lists, j: nat)
    requires IsIndex(d, ls) && j < |ls|
    ensures Prod(ls[..j]) > 0 && |ls[j]| > 0
    ensures (Position(d, ls) / Prod(ls[..j])) % |ls[j]| == d[j]
  {
    var n, q := |ls[0]|, Position(d[1..], ls[1..]);
    SplitDivMod(n, d[0], q);
    if j > 0 {
      DigitFormula(d[1..], ls[1..], j - 1);
      assert ls[1..][..j - 1] == ls[..j][1..];
      var m := Prod(ls[..j][1..]);
      TimesMono(n, 1, m);
      DivTwice(n, m, d[0], q);
    }
  }

  lemma DivTwice(n: nat, m: nat, r: nat, q: nat)
    requires r < n && m > 0 && Times(n, m) > 0
    ensures (r + Times(n, q)) / Times(n, m) == q / m
  {
    var q', r' := q / m, q % m;
    assert q == Times(m, q') + r';
    assert Times(n, q) == Times(Times(n, m), q') + Times(n, r') by {
      assert n * (m * q' + r') == n * (m * q') + n * r';
      assert n * (m * q') == (n * m) * q';
    }
    TimesMono(n, r' + 1, m);
    TimesSucc(n, r');
    SplitDivMod(Times(n, m), r + Times(n, r'), q');
  }

  // ---------------------------------------------------------------- the registration object

  /** The first n rows, in the order the odometer visits them. */
  function Rows(ls: Lists, n: nat): (r: seq<seq<int>>)
    requires NoneEmpty(ls)
    ensures |r| == n
  {
    if n == 0 then [] else Rows(ls, n - 1) + [Row(Odometer(n - 1, ls), ls)]
  }

  lemma RowsGrow(before: seq<seq<int>>, now: seq<seq<int>>, ls: Lists, n: nat)
    requires NoneEmpty(ls) && now == before + Rows(ls, n)
    ensures now + [Row(Odometer(n, ls), ls)] == before + Rows(ls, n + 1)
  {
  }

  lemma {:induction false} RowsAt(ls: Lists, n: nat, i: nat)
    requires NoneEmpty(ls) && i < n
    ensures Rows(ls, n)[i] == Row(Odometer(i, ls), ls)
  {
    if i < n - 1 {
      RowsAt(ls, n - 1, i);
    }
  }

  /** The rows are exactly the Cartesian product: an index tuple has one row, at its position. */
  lemma RowsAreTheProduct(ls: Lists, d: seq<nat>)
    requires IsIndex(d, ls)
    ensures NoneEmpty(ls) && Position(d, ls) < Prod(ls)
    ensures forall i: nat :: i < Prod(ls) ==> (Odometer(i, ls) == d <==> i == Position(d, ls))
    ensures Rows(ls, Prod(ls))[Position(d, ls)] == Row(d, ls)
  {
    PositionBelow(d, ls);
    forall i: nat | i < Prod(ls) ensures Odometer(i, ls) == d <==> i == Position(d, ls) {
      OdometerShows(i, ls);
      if i == Position(d, ls) {
        PositionInjective(Odometer(i, ls), d, ls);
      }
    }
    RowsAt(ls, Prod(ls), Position(d, ls));
  }

  lemma RowsDiffer(a: seq<nat>, b: seq<nat>, ls: Lists)
    requires IsIndex(a, ls) && IsIndex(b, ls) && a != b
    requires forall j :: 0 <= j < |ls| ==> Distinct(ls[j])
    ensures Row(a, ls) != Row(b, ls)
  {
    var j :| 0 <= j < |ls| && a[j] != b[j];
    assert Distinct(ls[j]);
    assert Row(a, ls)[j] != Row(b, ls)[j];
  }

  /** Lists without repetitions give rows without repetitions. */
  lemma RowsDistinct(ls: Lists)
    requires NoneEmpty(ls) && forall j :: 0 <= j < |ls| ==> Distinct(ls[j])
    ensures Distinct(Rows(ls, Prod(ls)))
  {
    forall i: nat, k: nat | i < k < Prod(ls) ensures Rows(ls, Prod(ls))[i] != Rows(ls, Prod(ls))[k] {
      RowsAt(ls, Prod(ls), i);
      RowsAt(ls, Prod(ls), k);
      OdometerShows(i, ls);
      OdometerShows(k, ls);
      RowsDiffer(Odometer(i, ls), Odometer(k, ls), ls);
    }
  }

  lemma {:induction false} ProdZero(ls: Lists)
    ensures Prod(ls) == 0 <==> !NoneEmpty(ls)
  {
    if NoneEmpty(ls) {
      ZeroPosition(ls);
    } else {
      assert forall j :: 1 <= j < |ls| ==> ls[j] == ls[1..][j - 1];
      if |ls[0]| > 0 {
        ProdZero(ls[1..]);
      }
    }
  }

  class Benchmark {
    const rangeMultiplier: int
    const kmax: int
    var args: seq<seq<int>>

    constructor (rangeMultiplier: int, kmax: int)
      ensures this.rangeMultiplier == rangeMultiplier && this.kmax == kmax && args == []
    {
      this.rangeMultiplier, this.kmax, args := rangeMultiplier, kmax, [];
    }

    /** Appends one row per element of the product; nothing when a list is empty. Without any list the product
        is the empty row, after which the odometer reads past its end: the result is not defined. */
    method ArgsProduct(arglists: Lists) returns (defined: bool, indices: seq<nat>)
      modifies this`args
      ensures defined <==> arglists != []
      ensures defined ==>
        args == old(args) + (if NoneEmpty(arglists) then Rows(arglists, Prod(arglists)) else [])
      ensures defined ==> |indices| == |arglists| && forall j :: 0 <= j < |indices| ==> indices[j] == 0
      ensures !defined ==> args == old(args) + [[]]
    {
      var total := Total(arglists);
      ProdZero(arglists);
      indices := Zeros(|arglists|);
      if |arglists| == 0 {
        args := args + [[]];
        return false, indices;
      }
      defined := true;
      if total > 0 {
        indices := AppendRows(arglists, total);
        OdometerShows(total, arglists);
      }
    }

    /** The outer loop of ArgsProduct, when it has anything to do. */
    method AppendRows(arglists: Lists, total: nat) returns (indices: seq<nat>)
      requires arglists != [] && NoneEmpty(arglists)
      modifies this`args
      ensures args == old(args) + Rows(arglists, total)
      ensures indices == Odometer(total, arglists)
    {
      indices := Zeros(|arglists|);
      var i := 0;
      while i < total
        invariant 0 <= i <= total && indices == Odometer(i, arglists)
        invariant args == old(args) + Rows(arglists, i)
      {
        var row := SelectRow(indices, arglists);
        RowsGrow(old(args), args, arglists, i);
        args := args + [row];
        indices := Increment(indices, arglists);
        i := i + 1;
      }
    }

    method Ranges(ranges: seq<(int, int)>) returns (defined: bool)
      requires rangeMultiplier >= 2
      requires forall r :: r in ranges ==> -kmax - 1 <= r.0 <= r.1 <= kmax
      modifies this`args
      ensures defined <==> ranges != []
      ensures defined ==> exists ls: Lists ::
        && |ls| == |ranges| && NoneEmpty(ls)
        && (forall j :: 0 <= j < |ls| ==> ListsRange(ls[j], ranges[j].0, ranges[j].1, rangeMultiplier))
        && args == old(args) + Rows(ls, Prod(ls))
        && Distinct(Rows(ls, Prod(ls)))
    {
      var arglists: Lists := [];
      var i := 0;
      while i < |ranges|
        invariant 0 <= i == |arglists| <= |ranges| && args == old(args)
        invariant forall j :: 0 <= j < i ==> ListsRange(arglists[j], ranges[j].0, ranges[j].1, rangeMultiplier)
      {
        var v := new ArgVector(kmax);
        assert ranges[i] in ranges;
        v.AddRange(ranges[i].0, ranges[i].1, rangeMultiplier);
        assert v.elems[0..] == v.elems;
        arglists := arglists + [v.elems];
        i := i + 1;
      }
      RowsDistinct(arglists);
      var indices;
      defined, indices := ArgsProduct(arglists);
    }
  }

  /** std::accumulate over the list lengths. */
  method Total(arglists: Lists) returns (total: nat)
    ensures total == Prod(arglists)
  {
    total := 1;
    var k := 0;
    while k < |arglists|
      invariant 0 <= k <= |arglists| && Times(total, Prod(arglists[k..])) == Prod(arglists)
    {
      assert arglists[k..][1..] == arglists[k + 1..];
      assert total * (|arglists[k]| * Prod(arglists[k + 1..])) == (total * |arglists[k]|) * Prod(arglists[k + 1..]);
      total := total * |arglists[k]|;
      k := k + 1;
    }
  }

  /** The inner loop of ArgsProduct that collects one row. */
  method SelectRow(indices: seq<nat>, arglists: Lists) returns (row: seq<int>)
    requires IsIndex(indices, arglists)
    ensures row == Row(indices, arglists)
  {
    row := [];
    var arg := 0;
    while arg < |arglists|
      invariant 0 <= arg <= |arglists| && row == Row(indices, arglists)[..arg]
    {
      row := row + [arglists[arg][indices[arg]]];
      arg := arg + 1;
    }
  }

  /** The do-while loop of ArgsProduct that carries from column to column. */
  method Increment(indices: seq<nat>, arglists: Lists) returns (r: seq<nat>)
    requires arglists != [] && IsIndex(indices, arglists)
    ensures r == Turn(indices, arglists)
  {
    r := indices;
    var arg := 0;
    var again := true;
    while again
      invariant 0 <= arg <= |arglists| && (again ==> arg < |arglists|)
      invariant |r| == |arglists| && AtTop(indices, arglists, if again then arg else 0)
      invariant again ==> forall j :: 0 <= j < |r| ==> r[j] == if j < arg then 0 else indices[j]
      invariant !again ==> r == Turn(indices, arglists)
      decreases |arglists| - arg, again
    {
      CarryAt(indices, arglists, arg, r);
      r := r[arg := (r[arg] + 1) % |arglists[arg]|];
      again := r[arg] == 0 && arg + 1 < |arglists|;
      arg := arg + 1;
    }
  }

  /** One pass of the carrying loop in column k. */
  lemma CarryAt(d: seq<nat>, ls: Lists, k: nat, r: seq<nat>)
    requires IsIndex(d, ls) && k < |ls| && AtTop(d, ls, k)
    requires |r| == |ls| && forall j :: 0 <= j < |r| ==> r[j] == if j < k then 0 else d[j]
    ensures var digit := (r[k] + 1) % |ls[k]|;
      if digit == 0 && k + 1 < |ls| then AtTop(d, ls, k + 1) else r[k := digit] == Turn(d, ls)
  {
    OneDigit(d[k], |ls[k]|);
    if !AtTop(d, ls, k + 1) {
      TurnStopsAt(d, ls, k);
    } else if k + 1 == |ls| {
      TurnStopsAt(d, ls, k + 1);
    }
  }

  lemma OneDigit(x: nat, n: nat)
    requires x < n
    ensures (x + 1) % n == if x + 1 < n then x + 1 else 0
  {
  }

  /** The first k columns are at their last element. */
  predicate AtTop(d: seq<nat>, ls: Lists, k: nat)
    requires IsIndex(d, ls) && k <= |ls|
  {
    forall j :: 0 <= j < k ==> d[j] + 1 == |ls[j]|
  }

  /** A turn zeroes the columns at their last element and moves the next one. */
  lemma {:induction false} TurnStopsAt(d: seq<nat>, ls: Lists, k: nat)
    requires IsIndex(d, ls) && k <= |ls| && AtTop(d, ls, k)
    requires k < |ls| ==> d[k] + 1 < |ls[k]|
    ensures forall j :: 0 <= j < |ls| ==>
      Turn(d, ls)[j] == if j < k then 0 else if j == k then d[j] + 1 else d[j]
  {
    if k > 0 {
      TurnStopsAt(d[1..], ls[1..], k - 1);
      forall j | 0 <= j < |ls|
        ensures Turn(d, ls)[j] == if j < k then 0 else if j == k then d[j] + 1 else d[j]
      {
        if j > 0 {
          assert Turn(d, ls)[j] == Turn(d[1..], ls[1..])[j - 1];
        }
      }
    }
  }
}
