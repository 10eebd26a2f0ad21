/** Geometric argument ranges over a bounded signed type
    (google_benchmark/src/benchmark_register.h). */
module Ranges {

  function Pow(m: int, k: nat): int {
    if k == 0 then 1 else m * Pow(m, k - 1)
  }

  ghost predicate IsPower(m: int, x: int) {
    exists k: nat :: Pow(m, k) == x
  }

  predicate StrictlyIncreasing(s: seq<int>) {
    forall i, j :: 0 <= i < j < |s| ==> s[i] < s[j]
  }

  /** `s` lists, in increasing order, the powers of m between lo and hi. */
  ghost predicate ListsPowers(s: seq<int>, lo: int, hi: int, m: int) {
    && StrictlyIncreasing(s)
    && forall x :: x in s <==> lo <= x <= hi && IsPower(m, x)
  }

  /** `s` lists, in increasing order, the negated powers of m between lo and hi. */
  ghost predicate ListsNegatedPowers(s: seq<int>, lo: int, hi: int, m: int) {
    && StrictlyIncreasing(s)
    && forall x :: x in s <==> lo <= x <= hi && IsPower(m, -x)
  }

  /** The endpoints and, strictly between them, zero and the positive and negative powers. */
  ghost predicate InRange(x: int, lo: int, hi: int, m: int) {
    x == lo || x == hi || (lo < x < hi && (x == 0 || IsPower(m, x) || IsPower(m, -x)))
  }

  ghost predicate ListsRange(s: seq<int>, lo: int, hi: int, m: int) {
    && StrictlyIncreasing(s) && s != [] && s[0] == lo && s[|s| - 1] == hi
    && forall x :: x in s <==> InRange(x, lo, hi, m)
  }

  lemma {:induction false} PowPositive(m: int, k: nat)
    requires m >= 2
    ensures Pow(m, k) >= 1
  {
    if k > 0 {
      PowPositive(m, k - 1);
    }
  }

  lemma {:induction false} PowGrows(m: int, j: nat, k: nat)
    requires m >= 2 && j < k
    ensures Pow(m, j) * m <= Pow(m, k)
  {
    PowPositive(m, k - 1);
    if j < k - 1 {
      PowGrows(m, j, k - 1);
      PowPositive(m, j);
      assert Pow(m, k - 1) * m >= Pow(m, k - 1);
    }
  }

  /** No power lies strictly between two neighbouring ones. */
  lemma NextPower(m: int, k: nat, x: int)
    requires m >= 2 && IsPower(m, x)
    ensures x <= Pow(m, k) || x >= Pow(m, k) * m
  {
    var j: nat :| Pow(m, j) == x;
    PowPositive(m, j);
    if j < k {
      PowGrows(m, j, k);
      assert x <= x * m;
    } else if k < j {
      PowGrows(m, k, j);
    }
  }

  lemma PowersArePositive(m: int, x: int)
    requires m >= 2 && IsPower(m, x)
    ensures x >= 1
  {
    var j: nat :| Pow(m, j) == x;
    PowPositive(m, j);
  }

  lemma FirstIsIn(s: seq<int>)
    requires s != []
    ensures s[0] in s
  {
  }

  /** An increasing listing is determined by its members. */
  lemma {:induction false} ListingUnique(s: seq<int>, t: seq<int>)
    requires StrictlyIncreasing(s) && StrictlyIncreasing(t)
    requires forall x :: x in s <==> x in t
    ensures s == t
  {
    if s == [] {
      if t != [] {
        FirstIsIn(t);
      }
    } else {
      assert s[0] in s && s[0] in t && t[0] in t && t[0] in s;
      forall x ensures x in s[1..] <==> x in t[1..] {
        assert x in s[1..] ==> x in s && x != s[0];
        assert x in t[1..] ==> x in t && x != t[0];
      }
      ListingUnique(s[1..], t[1..]);
    }
  }

  /** A vector of a signed integer type whose largest value is `kmax`, which is at least 1 for any such type. */
  class ArgVector {
    const kmax: int
    var elems: seq<int>

    constructor (kmax: int)
      ensures this.kmax == kmax && elems == []
    {
      this.kmax, elems := kmax, [];
    }

    predicate Fits(x: int) {
      -kmax - 1 <= x <= kmax
    }

    /** Appends the powers of `mult` in [lo, hi]; returns where the appended part starts. */
    method AddPowers(lo: int, hi: int, mult: int) returns (start: nat)
      requires 0 <= lo <= hi && Fits(hi) && mult >= 2
      modifies this
      ensures start == |old(elems)| <= |elems| && elems[..start] == old(elems)
      ensures ListsPowers(elems[start..], lo, hi, mult)
    {
      start := |elems|;
      var i := 1;
      ghost var k: nat := 0;
      ghost var added: seq<int> := [];
      NothingBelowOne(lo, hi, mult);
      while i <= hi
        invariant elems == old(elems) + added
        invariant 1 <= i == Pow(mult, k) && (kmax >= 1 ==> Fits(i))
        invariant ListsPowersBelow(added, lo, hi, mult, i)
        decreases kmax - i
      {
        OnePass(added, i, lo, hi, mult, k, kmax);
        if i >= lo {
          elems := elems + [i];
          added := added + [i];
        }
        if i > kmax / mult {
          break;
        }
        i := i * mult;
        k := k + 1;
      }
      assert elems[start..] == added;
    }

    /** Appends the negated powers of `mult` in [lo, hi], negating and reversing the new part in place. */
    method AddNegatedPowers(lo: int, hi: int, mult: int)
      requires -kmax - 1 < lo <= hi <= 0 && mult >= 2
      modifies this
      ensures |old(elems)| <= |elems| && elems[..|old(elems)|] == old(elems)
      ensures ListsNegatedPowers(elems[|old(elems)|..], lo, hi, mult)
    {
      assert Fits(-lo) && Fits(-hi);
      var it := AddPowers(-hi, -lo, mult);
      ghost var powers := elems[it..];
      NegateFrom(it);
      ReverseFrom(it);
      assert elems[..it] == old(elems);
      NegatedReversed(powers, elems[it..], lo, hi, mult);
    }

    method NegateFrom(it: nat)
      requires it <= |elems|
      modifies this
      ensures |elems| == |old(elems)|
      ensures forall p :: 0 <= p < |elems| ==> elems[p] == if p < it then old(elems)[p] else -old(elems)[p]
    {
      var j := it;
      while j < |elems|
        invariant it <= j <= |elems| == |old(elems)|
        invariant forall p :: 0 <= p < |elems| ==> elems[p] == if it <= p < j then -old(elems)[p] else old(elems)[p]
      {
        elems := elems[j := elems[j] * -1];
        j := j + 1;
      }
    }

    method ReverseFrom(it: nat)
      requires it <= |elems|
      modifies this
      ensures |elems| == |old(elems)|
      ensures forall p :: 0 <= p < |elems| ==>
        elems[p] == old(elems)[if p < it then p else it + |elems| - 1 - p]
    {
      var a, b := it, |elems|;
      while a < b - 1
        invariant it <= a && a + b == it + |elems| && |elems| == |old(elems)| && a <= b + 1
        invariant forall p :: 0 <= p < it || a <= p < b ==> elems[p] == old(elems)[p]
        invariant forall p :: it <= p < a || b <= p < |elems| ==> elems[p] == old(elems)[it + |elems| - 1 - p]
      {
        elems := elems[a := elems[b - 1]][b - 1 := elems[a]];
        a, b := a + 1, b - 1;
      }
    }

    /** Appends lo, the zero and signed powers of `mult` strictly between lo and hi, and hi. */
    method AddRange(lo: int, hi: int, mult: int)
      requires Fits(lo) && Fits(hi) && lo <= hi && mult >= 2
      modifies this
      ensures old(elems) <= elems && ListsRange(elems[|old(elems)|..], lo, hi, mult)
    {
      elems := elems + [lo];
      if lo == hi {
        assert elems[|old(elems)|..] == [lo];
        return;
      }
      if lo + 1 == hi {
        elems := elems + [hi];
        assert elems[|old(elems)|..] == [lo, hi];
        return;
      }
      ghost var part := AddNegativeAndZero(lo, hi, mult, old(elems));
      part := AddPositive(lo, hi, mult, old(elems), part);
      LastListed(part, lo, hi, mult);
      assert elems[|elems| - 1] == part[|part| - 1];
      if hi != elems[|elems| - 1] {
        elems := elems + [hi];
        assert elems == old(elems) + (part + [hi]);
      }
      assert elems[|old(elems)|..] == if hi == part[|part| - 1] then part else part + [hi];
    }

    /** The middle of AddRange up to and including zero; `before` is what the vector held at first. */
    method AddNegativeAndZero(lo: int, hi: int, mult: int, ghost before: seq<int>) returns (ghost part: seq<int>)
      requires Fits(lo) && Fits(hi) && lo + 1 < hi && mult >= 2 && elems == before + [lo]
      modifies this
      ensures elems == before + part && Below(part, lo, hi, mult, if hi < 0 then hi else 1)
    {
      assert Fits(lo + 1) && Fits(hi - 1);
      part := [lo];
      var loInner, hiInner := lo + 1, hi - 1;
      if loInner < 0 {
        ghost var n := |elems|;
        AddNegatedPowers(loInner, if hiInner < -1 then hiInner else -1, mult);
        part := part + elems[n..];
        NegativesListed(part, lo, hi, mult);
      } else {
        OnlyLowListed(lo, hi, mult);
      }
      ghost var negative := part;
      if lo < 0 && hi >= 0 {
        elems := elems + [0];
        part := part + [0];
        assert part[..|part| - 1] == negative;
      }
      ZeroListed(part, lo, hi, mult);
    }

    /** The positive powers of AddRange. */
    method AddPositive(lo: int, hi: int, mult: int, ghost before: seq<int>, ghost part0: seq<int>)
      returns (ghost part: seq<int>)
      requires Fits(lo) && Fits(hi) && lo + 1 < hi && mult >= 2
      requires elems == before + part0 && Below(part0, lo, hi, mult, if hi < 0 then hi else 1)
      modifies this
      ensures elems == before + part && Below(part, lo, hi, mult, if hi == 0 then 1 else hi)
    {
      assert Fits(lo + 1) && Fits(hi - 1);
      part := part0;
      var loInner, hiInner := lo + 1, hi - 1;
      if hiInner > 0 {
        ghost var n := |elems|;
        var it := AddPowers(if loInner > 1 then loInner else 1, hiInner, mult);
        PositivesListed(part, elems[n..], lo, hi, mult);
        part := part + elems[n..];
      }
    }
  }

  /** `s` starts with lo and lists every member of the range that is below `bound`. */
  ghost predicate Below(s: seq<int>, lo: int, hi: int, m: int, bound: int) {
    && StrictlyIncreasing(s) && s != [] && s[0] == lo
    && forall x :: x in s <==> x == lo || (InRange(x, lo, hi, m) && x < bound)
  }

  lemma NegativesListed(s: seq<int>, lo: int, hi: int, m: int)
    requires m >= 2 && lo + 1 < hi && s != [] && s[0] == lo
    requires ListsNegatedPowers(s[1..], lo + 1, if hi < 0 then hi - 1 else -1, m)
    ensures Below(s, lo, hi, m, if hi < 0 then hi else 0)
  {
    forall x ensures x in s <==> x == lo || (InRange(x, lo, hi, m) && x < if hi < 0 then hi else 0) {
      assert x in s <==> x == lo || x in s[1..];
      if IsPower(m, x) {
        PowersArePositive(m, x);
      }
    }
    forall i, j | 0 <= i < j < |s| ensures s[i] < s[j] {
      assert s[j] == s[1..][j - 1] && s[j] in s[1..];
      assert i > 0 ==> s[i] == s[1..][i - 1];
    }
  }

  lemma OnlyLowListed(lo: int, hi: int, m: int)
    requires m >= 2 && lo >= -1 && lo + 1 < hi
    ensures Below([lo], lo, hi, m, if hi < 0 then hi else 0)
  {
  }

  lemma ZeroListed(s: seq<int>, lo: int, hi: int, m: int)
    requires m >= 2 && lo + 1 < hi
    requires var t := if lo < 0 && hi >= 0 && s != [] then s[..|s| - 1] else s;
      Below(t, lo, hi, m, if hi < 0 then hi else 0) && (t != s ==> s[|s| - 1] == 0)
    requires lo < 0 && hi >= 0 ==> s != []
    ensures Below(s, lo, hi, m, if hi < 0 then hi else 1)
  {
    var t := if lo < 0 && hi >= 0 then s[..|s| - 1] else s;
    if t != s {
      assert s == t + [0];
      forall i | 0 <= i < |t| ensures t[i] < 0 {
        assert t[i] in t;
      }
    }
  }

  lemma PositivesListed(s: seq<int>, powers: seq<int>, lo: int, hi: int, m: int)
    requires m >= 2 && hi > 1 && Below(s, lo, hi, m, 1)
    requires ListsPowers(powers, if lo > 0 then lo + 1 else 1, hi - 1, m)
    ensures Below(s + powers, lo, hi, m, hi)
  {
    var r := s + powers;
    forall x ensures x in r <==> x == lo || (InRange(x, lo, hi, m) && x < hi) {
      assert x in r <==> x in s || x in powers;
      if IsPower(m, -x) {
        PowersArePositive(m, -x);
      }
    }
    forall i, j | 0 <= i < j < |r| ensures r[i] < r[j] {
      if i < |s| <= j {
        assert r[i] in s && r[j] in powers;
      }
    }
  }

  lemma LastListed(s: seq<int>, lo: int, hi: int, m: int)
    requires lo < hi && Below(s, lo, hi, m, if hi == 0 then 1 else hi)
    ensures ListsRange(if s[|s| - 1] == hi then s else s + [hi], lo, hi, m)
  {
    forall i | 0 <= i < |s| ensures s[i] <= hi && (hi != 0 ==> s[i] < hi) {
      assert s[i] in s;
    }
    if hi == 0 {
      assert 0 in s;
      var i :| 0 <= i < |s| && s[i] == 0;
      assert i == |s| - 1;
    }
  }

  ghost predicate ListsPowersBelow(s: seq<int>, lo: int, hi: int, m: int, bound: int) {
    && StrictlyIncreasing(s)
    && forall x :: x in s <==> lo <= x <= hi && x < bound && IsPower(m, x)
  }

  lemma NothingBelowOne(lo: int, hi: int, m: int)
    requires m >= 2
    ensures ListsPowersBelow([], lo, hi, m, 1)
  {
    forall x | IsPower(m, x) ensures x >= 1 {
      PowersArePositive(m, x);
    }
  }

  /** One pass of the loop in AddPowers lists the power i = m^k. */
  lemma OnePowerListed(s: seq<int>, i: int, lo: int, hi: int, m: int, k: nat)
    requires m >= 2 && 1 <= i == Pow(m, k) && i <= hi && ListsPowersBelow(s, lo, hi, m, i)
    ensures ListsPowersBelow(if i >= lo then s + [i] else s, lo, hi, m, i * m)
  {
    var next := i * m;
    assert i < next;
    assert IsPower(m, i);
    forall x | IsPower(m, x) ensures x <= i || x >= next {
      NextPower(m, k, x);
    }
    ExtendListing(s, i, next, lo, hi, m);
  }

  lemma ExtendListing(s: seq<int>, i: int, next: int, lo: int, hi: int, m: int)
    requires ListsPowersBelow(s, lo, hi, m, i) && i <= hi && i < next && IsPower(m, i)
    requires forall x :: IsPower(m, x) ==> x <= i || x >= next
    ensures ListsPowersBelow(if i >= lo then s + [i] else s, lo, hi, m, next)
  {
    var r := if i >= lo then s + [i] else s;
    forall x ensures x in r <==> lo <= x <= hi && x < next && IsPower(m, x) {
      assert x in r <==> x in s || (x == i && i >= lo);
    }
    forall j | 0 <= j < |s| ensures s[j] < i {
      assert s[j] in s;
    }
  }

  /** The pass of the loop, and why it may stop or go on. */
  lemma OnePass(s: seq<int>, i: int, lo: int, hi: int, m: int, k: nat, kmax: int)
    requires m >= 2 && 1 <= i == Pow(m, k) && i <= hi <= kmax && ListsPowersBelow(s, lo, hi, m, i)
    ensures ListsPowersBelow(if i >= lo then s + [i] else s, lo, hi, m, i * m)
    ensures i > kmax / m ==> i * m > hi
    ensures i <= kmax / m ==> i < i * m <= kmax
  {
    OnePowerListed(s, i, lo, hi, m, k);
    if i > kmax / m {
      AboveTheLimit(i, kmax, m);
    } else {
      BelowTheLimit(i, kmax, m);
    }
  }

  lemma AboveTheLimit(i: int, kmax: int, mult: int)
    requires mult >= 2 && i > kmax / mult && i >= 1
    ensures i * mult > kmax
  {
    var q := kmax / mult;
    var d := i - q - 1;
    assert kmax < mult * q + mult;
    assert d * mult >= 0;
    assert i * mult == mult * q + mult + d * mult;
  }

  lemma BelowTheLimit(i: int, kmax: int, mult: int)
    requires mult >= 2 && 1 <= i <= kmax / mult
    ensures i < i * mult <= kmax
  {
    var q := kmax / mult;
    var d := q - i;
    assert mult * q <= kmax;
    assert d * mult >= 0;
    assert mult * q == i * mult + d * mult;
    assert i * (mult - 2) >= 0;
    assert i * mult == i + i + i * (mult - 2);
  }

  lemma NegatedReversed(powers: seq<int>, s: seq<int>, lo: int, hi: int, mult: int)
    requires ListsPowers(powers, -hi, -lo, mult) && |s| == |powers|
    requires forall p :: 0 <= p < |s| ==> s[p] == -powers[|s| - 1 - p]
    ensures ListsNegatedPowers(s, lo, hi, mult)
  {
    forall x ensures x in s <==> -x in powers {
      if x in s {
        var p :| 0 <= p < |s| && s[p] == x;
        assert powers[|s| - 1 - p] == -x;
      }
      if -x in powers {
        var p :| 0 <= p < |s| && powers[p] == -x;
        assert s[|s| - 1 - p] == x;
      }
    }
  }

  /** The powers of eight up to 8^5. */
  lemma PowersOfEight(x: int)
    ensures IsPower(8, x) && x <= 32768 <==> x in [1, 8, 64, 512, 4096, 32768]
  {
    var m := 8;
    assert Pow(m, 0) == 1 && Pow(m, 1) == 8 && Pow(m, 2) == 64;
    assert Pow(m, 3) == 512;
    assert Pow(m, 4) == 4096;
    assert Pow(m, 5) == 32768;
    if IsPower(m, x) {
      PowersArePositive(m, x);
      NextPower(m, 0, x);
      NextPower(m, 1, x);
      NextPower(m, 2, x);
      NextPower(m, 3, x);
      NextPower(m, 4, x);
    }
  }

  /** The range of the user guide: Range(8, 8 << 10) with the default multiplier. */
  lemma DocumentedRange(s: seq<int>)
    requires ListsRange(s, 8, 8192, 8)
    ensures s == [8, 64, 512, 4096, 8192]
  {
    var t := [8, 64, 512, 4096, 8192];
    forall x ensures x in s <==> x in t {
      PowersOfEight(x);
      if IsPower(8, -x) {
        PowersArePositive(8, -x);
      }
    }
    ListingUnique(s, t);
  }

  /** A range over zero lists the powers with both signs. */
  lemma SignedRange(s: seq<int>)
    requires ListsRange(s, -65, 10, 8)
    ensures s == [-65, -64, -8, -1, 0, 1, 8, 10]
  {
    var t := [-65, -64, -8, -1, 0, 1, 8, 10];
    forall x ensures x in s <==> x in t {
      PowersOfEight(x);
      PowersOfEight(-x);
    }
    ListingUnique(s, t);
  }
}
