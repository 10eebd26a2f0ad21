/** Sums over sequences, and other notions that several modules share. */
module Sums {

  function MaxReal(a: real, b: real): real {
    if a < b then b else a
  }

  predicate Distinct<T(==)>(s: seq<T>) {
    forall i, j :: 0 <= i < j < |s| ==> s[i] != s[j]
  }

  function Sum<T>(s: seq<T>, f: T -> int): int {
    if s == [] then 0 else f(s[0]) + Sum(s[1..], f)
  }

  function SumReal<T>(s: seq<T>, f: T -> real): real {
    if s == [] then 0.0 else f(s[0]) + SumReal(s[1..], f)
  }

  lemma {:induction false} SumUpdate<T>(s: seq<T>, f: T -> int, i: nat, x: T)
    requires i < |s|
    ensures Sum(s[i := x], f) == Sum(s, f) - f(s[i]) + f(x)
  {
    if i == 0 {
      assert s[0 := x][1..] == s[1..];
    } else {
      assert s[i := x][1..] == s[1..][i - 1 := x];
      SumUpdate(s[1..], f, i - 1, x);
    }
  }

  lemma {:induction false} SumRealUpdate<T>(s: seq<T>, f: T -> real, i: nat, x: T)
    requires i < |s|
    ensures SumReal(s[i := x], f) == SumReal(s, f) - f(s[i]) + f(x)
  {
    if i == 0 {
      assert s[0 := x][1..] == s[1..];
    } else {
      assert s[i := x][1..] == s[1..][i - 1 := x];
      SumRealUpdate(s[1..], f, i - 1, x);
    }
  }

  /** Two sums with pointwise related terms. */
  lemma {:induction false} SumPointwise<T, U>(s: seq<T>, f: T -> int, t: seq<U>, g: U -> int)
    requires |s| == |t|
    requires forall i :: 0 <= i < |s| ==> f(s[i]) <= g(t[i])
    ensures Sum(s, f) <= Sum(t, g)
    ensures Sum(s, f) == Sum(t, g) <==> forall i :: 0 <= i < |s| ==> f(s[i]) == g(t[i])
  {
    if s != [] {
      forall i | 0 <= i < |s[1..]| ensures f(s[1..][i]) <= g(t[1..][i]) {
        assert s[1..][i] == s[i + 1] && t[1..][i] == t[i + 1];
      }
      SumPointwise(s[1..], f, t[1..], g);
      if Sum(s, f) == Sum(t, g) {
        forall i | 0 <= i < |s| ensures f(s[i]) == g(t[i]) {
          if i > 0 {
            assert s[1..][i - 1] == s[i] && t[1..][i - 1] == t[i];
          }
        }
      } else if f(s[0]) == g(t[0]) {
        var j :| 0 <= j < |s[1..]| && f(s[1..][j]) != g(t[1..][j]);
        assert s[1..][j] == s[j + 1] && t[1..][j] == t[j + 1];
      }
    }
  }

  lemma {:induction false} SumRealSame<T, U>(s: seq<T>, f: T -> real, t: seq<U>, g: U -> real)
    requires |s| == |t|
    requires forall i :: 0 <= i < |s| ==> f(s[i]) == g(t[i])
    ensures SumReal(s, f) == SumReal(t, g)
  {
    if s != [] {
      forall i | 0 <= i < |s[1..]| ensures f(s[1..][i]) == g(t[1..][i]) {
        assert s[1..][i] == s[i + 1] && t[1..][i] == t[i + 1];
      }
      SumRealSame(s[1..], f, t[1..], g);
    }
  }

  /** A sum of terms between lo and hi lies between |s|*lo and |s|*hi. */
  lemma {:induction false} SumBounds<T>(s: seq<T>, f: T -> int, lo: int, hi: int)
    requires forall i :: 0 <= i < |s| ==> lo <= f(s[i]) <= hi
    ensures |s| * lo <= Sum(s, f) <= |s| * hi
  {
    if s != [] {
      forall i | 0 <= i < |s[1..]| ensures lo <= f(s[1..][i]) <= hi {
        assert s[1..][i] == s[i + 1];
      }
      SumBounds(s[1..], f, lo, hi);
      assert |s| * lo == lo + (|s| - 1) * lo && |s| * hi == hi + (|s| - 1) * hi;
    }
  }

  lemma TimesLess(n: nat, p: int, q: int)
    requires q < p
    ensures n * q <= n * p - n
  {
    var d := p - q - 1;
    assert n * d >= 0;
    assert n * p == n * (q + 1 + d) == n * q + n + n * d;
  }

  lemma DivAtLeast(x: int, n: nat, q: int)
    requires n > 0 && x >= n * q
    ensures x / n >= q
  {
    var d := x / n;
    assert x < n * d + n;
    if d < q {
      TimesLess(n, q, d);
    }
  }

  lemma {:induction false} SumAppend<T>(s: seq<T>, f: T -> int, x: T)
    ensures Sum(s + [x], f) == Sum(s, f) + f(x)
  {
    if s != [] {
      assert (s + [x])[1..] == s[1..] + [x];
      SumAppend(s[1..], f, x);
    } else {
      assert ([] + [x])[1..] == [];
    }
  }

  lemma Distribute(k: real, x: real, y: real)
    ensures k * (x + y) == k * x + k * y
  {
  }

  ghost predicate Combines<T>(x: T, f: T -> real, a: T -> real, b: T -> real, k: real, d: T -> real, l: real) {
    f(x) == Weighted(a(x), k, b(x), l, d(x))
  }

  function Weighted(a: real, k: real, b: real, l: real, d: real): real {
    a + k * b + l * d
  }

  lemma WeightedAdds(a: real, b: real, d: real, a': real, b': real, d': real, k: real, l: real)
    ensures Weighted(a, k, b, l, d) + Weighted(a', k, b', l, d') == Weighted(a + a', k, b + b', l, d + d')
  {
    Distribute(k, b, b');
    Distribute(l, d, d');
  }

  /** A sum of linear combinations. */
  lemma {:induction false} SumRealCombination<T>(s: seq<T>, f: T -> real, a: T -> real,
                                                 b: T -> real, k: real, d: T -> real, l: real)
    requires forall i :: 0 <= i < |s| ==> Combines(s[i], f, a, b, k, d, l)
    ensures SumReal(s, f) == Weighted(SumReal(s, a), k, SumReal(s, b), l, SumReal(s, d))
  {
    if s != [] {
      forall i | 0 <= i < |s[1..]| ensures Combines(s[1..][i], f, a, b, k, d, l) {
        assert s[1..][i] == s[i + 1];
      }
      SumRealCombination(s[1..], f, a, b, k, d, l);
      assert Combines(s[0], f, a, b, k, d, l);
      WeightedAdds(a(s[0]), b(s[0]), d(s[0]), SumReal(s[1..], a), SumReal(s[1..], b), SumReal(s[1..], d), k, l);
    }
  }

  lemma {:induction false} SumOfZeros<T>(s: seq<T>, f: T -> real)
    requires forall i :: 0 <= i < |s| ==> f(s[i]) == 0.0
    ensures SumReal(s, f) == 0.0
  {
    if s != [] {
      forall i | 0 <= i < |s[1..]| ensures f(s[1..][i]) == 0.0 {
        assert s[1..][i] == s[i + 1];
      }
      SumOfZeros(s[1..], f);
    }
  }
}
