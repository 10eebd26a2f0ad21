/** What std::sort and std::nth_element promise about reals, and the sums and counts that sorting keeps. */
module Sorting {
  import opened Sums

  ghost predicate Sorted(s: seq<real>) {
    forall i, j :: 0 <= i <= j < |s| ==> s[i] <= s[j]
  }

  function Insert(x: real, s: seq<real>): seq<real> {
    if s == [] || x <= s[0] then [x] + s else [s[0]] + Insert(x, s[1..])
  }

  function Sort(s: seq<real>): seq<real> {
    if s == [] then [] else Insert(s[0], Sort(s[1..]))
  }

  lemma SortedAround(left: seq<real>, x: real, right: seq<real>)
    requires Sorted(left) && Sorted(right)
    requires forall i :: 0 <= i < |left| ==> left[i] <= x
    requires forall i :: 0 <= i < |right| ==> x <= right[i]
    ensures Sorted(left + [x] + right)
  {
    var all := left + [x] + right;
    forall i, j | 0 <= i <= j < |all| ensures all[i] <= all[j] {
      assert i > |left| ==> all[i] == right[i - |left| - 1];
      assert j > |left| ==> all[j] == right[j - |left| - 1];
    }
  }

  lemma {:induction false} InsertKeeps(x: real, s: seq<real>)
    ensures multiset(Insert(x, s)) == multiset(s) + multiset{x}
  {
    if s != [] && x > s[0] {
      InsertKeeps(x, s[1..]);
      assert s == [s[0]] + s[1..];
    }
  }

  lemma {:induction false} InsertSorts(x: real, s: seq<real>)
    requires Sorted(s)
    ensures Sorted(Insert(x, s))
  {
    if s == [] || x <= s[0] {
      SortedAround([], x, s);
      assert [] + [x] + s == [x] + s;
    } else {
      var rest := Insert(x, s[1..]);
      InsertSorts(x, s[1..]);
      InsertKeeps(x, s[1..]);
      forall i | 0 <= i < |rest| ensures s[0] <= rest[i] {
        assert rest[i] in multiset(s[1..]) + multiset{x};
      }
      SortedAround([], s[0], rest);
      assert [] + [s[0]] + rest == [s[0]] + rest;
    }
  }

  lemma {:induction false} SortSorts(s: seq<real>)
    ensures Sorted(Sort(s)) && multiset(Sort(s)) == multiset(s) && |Sort(s)| == |s|
  {
    if s != [] {
      SortSorts(s[1..]);
      InsertSorts(s[0], Sort(s[1..]));
      InsertKeeps(s[0], Sort(s[1..]));
      assert s == [s[0]] + s[1..];
    }
    assert |multiset(Sort(s))| == |multiset(s)|;
  }

  lemma SameTails(s: seq<real>, t: seq<real>)
    requires s != [] && t != [] && s[0] == t[0] && multiset(s) == multiset(t)
    ensures multiset(s[1..]) == multiset(t[1..])
  {
    assert s == [s[0]] + s[1..] && t == [t[0]] + t[1..];
    assert multiset(s[1..]) == multiset(s) - multiset{s[0]};
    assert multiset(t[1..]) == multiset(t) - multiset{t[0]};
  }

  /** Any two sorted arrangements of the same values are the same. */
  lemma {:induction false} SortedIsUnique(s: seq<real>, t: seq<real>)
    requires Sorted(s) && Sorted(t) && multiset(s) == multiset(t)
    ensures s == t
  {
    assert |multiset(s)| == |s| && |multiset(t)| == |t|;
    if s != [] {
      assert s[0] in multiset(t) && t[0] in multiset(s);
      assert s[0] == t[0];
      SameTails(s, t);
      SortedIsUnique(s[1..], t[1..]);
    }
  }

  // ---------------------------------------------------------------- sums of rearranged sequences

  lemma {:induction false} SumRealRemove<T>(s: seq<T>, f: T -> real, i: nat)
    requires i < |s|
    ensures SumReal(s, f) == f(s[i]) + SumReal(s[..i] + s[i + 1..], f)
  {
    if i == 0 {
      assert s[..0] + s[1..] == s[1..];
    } else {
      assert s[1..][..i - 1] + s[1..][i..] == (s[..i] + s[i + 1..])[1..];
      SumRealRemove(s[1..], f, i - 1);
    }
  }

  lemma {:induction false} SumRealOfSame<T>(s: seq<T>, t: seq<T>, f: T -> real)
    requires multiset(s) == multiset(t)
    ensures SumReal(s, f) == SumReal(t, f)
  {
    assert |multiset(s)| == |s| && |multiset(t)| == |t|;
    if s != [] {
      assert s[0] in multiset(t);
      var i :| 0 <= i < |t| && t[i] == s[0];
      SumRealRemove(t, f, i);
      SameWithout(s, t, i);
      SumRealOfSame(s[1..], t[..i] + t[i + 1..], f);
    }
  }

  lemma {:induction false} SumRemove<T>(s: seq<T>, f: T -> int, i: nat)
    requires i < |s|
    ensures Sum(s, f) == f(s[i]) + Sum(s[..i] + s[i + 1..], f)
  {
    if i == 0 {
      assert s[..0] + s[1..] == s[1..];
    } else {
      assert s[1..][..i - 1] + s[1..][i..] == (s[..i] + s[i + 1..])[1..];
      SumRemove(s[1..], f, i - 1);
    }
  }

  lemma {:induction false} SumOfSame<T>(s: seq<T>, t: seq<T>, f: T -> int)
    requires multiset(s) == multiset(t)
    ensures Sum(s, f) == Sum(t, f)
  {
    assert |multiset(s)| == |s| && |multiset(t)| == |t|;
    if s != [] {
      assert s[0] in multiset(t);
      var i :| 0 <= i < |t| && t[i] == s[0];
      SumRemove(t, f, i);
      SameWithout(s, t, i);
      SumOfSame(s[1..], t[..i] + t[i + 1..], f);
    }
  }

  lemma SameWithout<T>(s: seq<T>, t: seq<T>, i: nat)
    requires multiset(s) == multiset(t) && s != [] && i < |t| && t[i] == s[0]
    ensures multiset(s[1..]) == multiset(t[..i] + t[i + 1..])
  {
    assert s == [s[0]] + s[1..];
    assert t == t[..i] + [t[i]] + t[i + 1..];
    assert multiset(s[1..]) == multiset(s) - multiset{s[0]};
    assert multiset(t[..i] + t[i + 1..]) == multiset(t) - multiset{t[i]};
  }

  lemma {:induction false} SumRealAppend<T>(s: seq<T>, f: T -> real, x: T)
    ensures SumReal(s + [x], f) == SumReal(s, f) + f(x)
  {
    if s != [] {
      assert (s + [x])[1..] == s[1..] + [x];
      SumRealAppend(s[1..], f, x);
    } else {
      assert ([] + [x])[1..] == [];
    }
  }

  // ---------------------------------------------------------------- selection

  /** What std::nth_element leaves behind: the k-th value in its place, nothing larger before it,
      nothing smaller after it. */
  ghost predicate Selected(c: seq<real>, v: seq<real>, k: nat) {
    && multiset(c) == multiset(v) && k < |c|
    && (forall i :: 0 <= i < k ==> c[i] <= c[k])
    && (forall i :: k < i < |c| ==> c[k] <= c[i])
  }

  /** However the rest is arranged, the k-th value is that of the sorted sequence, and the values before
      it are the first k of it. */
  lemma SelectedIsSorted(c: seq<real>, v: seq<real>, k: nat)
    requires Selected(c, v, k)
    ensures Sort(v) == Sort(c[..k]) + [c[k]] + Sort(c[k + 1..])
  {
    var left, right := Sort(c[..k]), Sort(c[k + 1..]);
    SortSorts(c[..k]);
    SortSorts(c[k + 1..]);
    SortSorts(v);
    AllBelow(left, c[..k], c[k]);
    AllAbove(right, c[k + 1..], c[k]);
    SortedAround(left, c[k], right);
    SamePieces(c, k, left, right);
    SortedIsUnique(Sort(v), left + [c[k]] + right);
  }

  lemma AllBelow(s: seq<real>, t: seq<real>, x: real)
    requires multiset(s) == multiset(t) && forall i :: 0 <= i < |t| ==> t[i] <= x
    ensures forall i :: 0 <= i < |s| ==> s[i] <= x
  {
    forall i | 0 <= i < |s| ensures s[i] <= x {
      assert s[i] in multiset(t);
    }
  }

  lemma AllAbove(s: seq<real>, t: seq<real>, x: real)
    requires multiset(s) == multiset(t) && forall i :: 0 <= i < |t| ==> x <= t[i]
    ensures forall i :: 0 <= i < |s| ==> x <= s[i]
  {
    forall i | 0 <= i < |s| ensures x <= s[i] {
      assert s[i] in multiset(t);
    }
  }

  lemma SamePieces(c: seq<real>, k: nat, left: seq<real>, right: seq<real>)
    requires k < |c| && multiset(left) == multiset(c[..k]) && multiset(right) == multiset(c[k + 1..])
    ensures multiset(left + [c[k]] + right) == multiset(c)
  {
    assert c == c[..k] + [c[k]] + c[k + 1..];
  }
}
