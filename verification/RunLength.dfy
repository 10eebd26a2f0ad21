/** The run-length coder of examples/google_benchmark_cmake/memory_bench.hpp. */
module RunLength {

  predicate IsDigit(c: char) {
    '0' <= c <= '9'
  }

  predicate NoDigits(s: string) {
    forall i :: 0 <= i < |s| ==> !IsDigit(s[i])
  }

  function DigitValue(c: char): nat
    requires IsDigit(c)
  {
    (c - '0') as nat
  }

  /** std::to_string of a count. */
  function ToDecimal(n: nat): (r: string)
    ensures r != "" && forall i :: 0 <= i < |r| ==> IsDigit(r[i])
  {
    var last := [('0' as int + n % 10) as char];
    if n < 10 then last else ToDecimal(n / 10) + last
  }

  function Repeat(n: nat, c: char): (r: string)
    ensures |r| == n && forall i :: 0 <= i < n ==> r[i] == c
  {
    seq(n, _ => c)
  }

  // ---------------------------------------------------------------- what the coder computes

  datatype Run = Run(count: nat, ch: char)

  function Expand(runs: seq<Run>): string {
    if runs == [] then "" else Repeat(runs[0].count, runs[0].ch) + Expand(runs[1..])
  }

  function Render(runs: seq<Run>): string {
    if runs == [] then "" else ToDecimal(runs[0].count) + [runs[0].ch] + Render(runs[1..])
  }

  /** Every run is non-empty and as long as it can be. */
  predicate Maximal(runs: seq<Run>) {
    && (forall i :: 0 <= i < |runs| ==> runs[i].count > 0)
    && (forall i :: 0 <= i < |runs| - 1 ==> runs[i].ch != runs[i + 1].ch)
  }

  /** The runs of `count` characters `ch` followed by s. */
  function RunsFrom(count: nat, ch: char, s: string): seq<Run>
    decreases s
  {
    if s == "" then [Run(count, ch)]
    else if s[0] == ch then RunsFrom(count + 1, ch, s[1..])
    else [Run(count, ch)] + RunsFrom(1, s[0], s[1..])
  }

  function Runs(s: string): seq<Run> {
    if s == "" then [] else RunsFrom(1, s[0], s[1..])
  }

  /** Decoding s when a count of `count` has been read so far. */
  function DecodeFrom(count: nat, s: string): string
    decreases s
  {
    if s == "" then ""
    else if IsDigit(s[0]) then DecodeFrom(count * 10 + DigitValue(s[0]), s[1..])
    else Repeat(count, s[0]) + DecodeFrom(0, s[1..])
  }

  function Encode(s: string): string {
    Render(Runs(s))
  }

  function Decode(s: string): string {
    DecodeFrom(0, s)
  }

  // ---------------------------------------------------------------- the loops

  method RleEncode(input: string) returns (result: string)
    ensures result == Encode(input)
  {
    if input == "" {
      return "";
    }
    result := "";
    var current := input[0];
    var count := 1;
    var i := 1;
    while i < |input|
      invariant 1 <= i <= |input|
      invariant Render(Runs(input)) == result + Render(RunsFrom(count, current, input[i..]))
    {
      assert input[i..][1..] == input[i + 1..];
      if input[i] == current {
        count := count + 1;
      } else {
        result := result + (ToDecimal(count) + [current]);
        current := input[i];
        count := 1;
      }
      i := i + 1;
    }
    result := result + (ToDecimal(count) + [current]);
  }

  method RleDecode(input: string) returns (result: string)
    ensures result == Decode(input)
  {
    result := "";
    var i := 0;
    while i < |input|
      invariant 0 <= i <= |input|
      invariant Decode(input) == result + DecodeFrom(0, input[i..])
    {
      var count: nat := 0;
      while i < |input| && IsDigit(input[i])
        invariant 0 <= i <= |input|
        invariant Decode(input) == result + DecodeFrom(count, input[i..])
        decreases |input| - i
      {
        assert input[i..][1..] == input[i + 1..];
        count := count * 10 + DigitValue(input[i]);
        i := i + 1;
      }
      if i < |input| {
        assert input[i..][1..] == input[i + 1..];
        result := result + Repeat(count, input[i]);
        i := i + 1;
      }
    }
  }

  // ---------------------------------------------------------------- round trip

  function Parse(count: nat, digits: string): nat
    requires forall i :: 0 <= i < |digits| ==> IsDigit(digits[i])
    decreases digits
  {
    if digits == "" then count else Parse(count * 10 + DigitValue(digits[0]), digits[1..])
  }

  lemma {:induction false} ParseAppend(count: nat, digits: string, d: char)
    requires forall i :: 0 <= i < |digits| ==> IsDigit(digits[i])
    requires IsDigit(d)
    ensures Parse(count, digits + [d]) == Parse(count, digits) * 10 + DigitValue(d)
    decreases digits
  {
    if digits == "" {
      assert (digits + [d])[1..] == "";
    } else {
      assert (digits + [d])[1..] == digits[1..] + [d];
      ParseAppend(count * 10 + DigitValue(digits[0]), digits[1..], d);
    }
  }

  /** Printing a count and reading it back. */
  lemma {:induction false} ParseDecimal(n: nat)
    ensures Parse(0, ToDecimal(n)) == n
  {
    if n >= 10 {
      ParseDecimal(n / 10);
      ParseAppend(0, ToDecimal(n / 10), ('0' as int + n % 10) as char);
    } else {
      assert ToDecimal(n)[1..] == "";
    }
  }

  /** No count but zero is printed with a leading zero. */
  lemma {:induction false} NoLeadingZero(n: nat)
    ensures if n == 0 then ToDecimal(n) == "0" else ToDecimal(n)[0] != '0'
  {
    if n >= 10 {
      NoLeadingZero(n / 10);
    }
  }

  /** Of digits followed by another character the decoder makes as many copies as the digits say, none when
      there are no digits, and goes on behind it; digits at the end are dropped. */
  lemma DecodeToken(digits: string, c: char, rest: string)
    requires forall i :: 0 <= i < |digits| ==> IsDigit(digits[i])
    ensures !IsDigit(c) ==> Decode(digits + ([c] + rest)) == Repeat(Parse(0, digits), c) + Decode(rest)
    ensures Decode(digits) == ""
  {
    DecodeDigits(0, digits, [c] + rest);
    assert ([c] + rest)[1..] == rest;
    DecodeDigits(0, digits, "");
    assert digits + "" == digits;
  }

  lemma {:induction false} DecodeDigits(count: nat, digits: string, rest: string)
    requires forall i :: 0 <= i < |digits| ==> IsDigit(digits[i])
    ensures DecodeFrom(count, digits + rest) == DecodeFrom(Parse(count, digits), rest)
    decreases digits
  {
    if digits == "" {
      assert digits + rest == rest;
    } else {
      assert (digits + rest)[1..] == digits[1..] + rest;
      DecodeDigits(count * 10 + DigitValue(digits[0]), digits[1..], rest);
    }
  }

  /** Decoding undoes rendering for runs of non-digits. */
  lemma {:induction false} DecodeRender(runs: seq<Run>)
    requires forall i :: 0 <= i < |runs| ==> !IsDigit(runs[i].ch)
    ensures Decode(Render(runs)) == Expand(runs)
  {
    if runs != [] {
      var r := runs[0];
      var tail := [r.ch] + Render(runs[1..]);
      assert Render(runs) == ToDecimal(r.count) + tail;
      DecodeDigits(0, ToDecimal(r.count), tail);
      ParseDecimal(r.count);
      assert tail[1..] == Render(runs[1..]);
      DecodeRender(runs[1..]);
    }
  }

  lemma {:induction false} RunsFromFacts(count: nat, ch: char, s: string)
    requires count > 0
    ensures var runs := RunsFrom(count, ch, s);
      && runs != [] && runs[0].ch == ch && Maximal(runs)
      && Expand(runs) == Repeat(count, ch) + s
      && forall i :: 0 <= i < |runs| ==> runs[i].ch == ch || runs[i].ch in s
    decreases s
  {
    if s == "" {
      assert Expand([Run(count, ch)][1..]) == "";
    } else if s[0] == ch {
      RunsFromFacts(count + 1, ch, s[1..]);
      assert Repeat(count + 1, ch) + s[1..] == Repeat(count, ch) + s;
    } else {
      var rest := RunsFrom(1, s[0], s[1..]);
      var runs := [Run(count, ch)] + rest;
      RunsFromFacts(1, s[0], s[1..]);
      assert Repeat(1, s[0]) + s[1..] == s;
      assert runs[1..] == rest;
      forall i | 0 <= i < |runs| ensures runs[i].ch == ch || runs[i].ch in s {
        if i > 0 {
          assert rest[i - 1].ch == s[0] || rest[i - 1].ch in s[1..];
        }
      }
    }
  }

  /** The encoder splits its input into maximal runs: adjacent encoded runs have different characters. */
  lemma RunsAreMaximal(s: string)
    ensures Expand(Runs(s)) == s && Maximal(Runs(s))
    ensures forall i :: 0 <= i < |Runs(s)| ==> Runs(s)[i].ch in s
  {
    if s != "" {
      RunsFromFacts(1, s[0], s[1..]);
      assert Repeat(1, s[0]) + s[1..] == s;
      forall i | 0 <= i < |Runs(s)| ensures Runs(s)[i].ch in s {
        assert Runs(s)[i].ch == s[0] || Runs(s)[i].ch in s[1..];
      }
    }
  }

  lemma {:induction false} DecodedHasNoDigits(count: nat, s: string)
    ensures NoDigits(DecodeFrom(count, s))
    decreases s
  {
    if s != "" {
      if IsDigit(s[0]) {
        DecodedHasNoDigits(count * 10 + DigitValue(s[0]), s[1..]);
      } else {
        DecodedHasNoDigits(0, s[1..]);
      }
    }
  }

  /** The round trip restores a string exactly when it has no decimal digit. */
  lemma RoundTrip(s: string)
    ensures Decode(Encode(s)) == s <==> NoDigits(s)
  {
    if NoDigits(s) {
      RunsAreMaximal(s);
      forall i | 0 <= i < |Runs(s)| ensures !IsDigit(Runs(s)[i].ch) {
        assert Runs(s)[i].ch in s;
      }
      DecodeRender(Runs(s));
    } else {
      DecodedHasNoDigits(0, Encode(s));
    }
  }

  /** The text "1" is encoded as "11", of which nothing is left. */
  lemma DigitIsLost(s: string)
    requires s == "1"
    ensures Encode(s) == "11" && Decode(Encode(s)) == ""
  {
    var runs := Runs(s);
    assert s[1..] == "";
    assert runs == [Run(1, '1')];
    assert runs[1..] == [];
    assert Render(runs) == ToDecimal(1) + ['1'] + Render(runs[1..]);
    assert ToDecimal(1) == "1";
    var e := Encode(s);
    assert e == "11";
    DecodeDigits(0, e, "");
    assert e + "" == e;
  }

  /** Maximal runs are determined by the string they expand to. */
  lemma {:induction false} MaximalRunsUnique(runs: seq<Run>, s: string)
    requires Maximal(runs) && Expand(runs) == s
    ensures runs == Runs(s)
  {
    if runs != [] {
      var r := runs[0];
      var rest := Expand(runs[1..]);
      assert s[0] == r.ch;
      HeadRun(r.count, r.ch, rest);
      HeadDiffers(runs);
      assert s == Repeat(r.count, r.ch) + rest;
      assert s[1..] == Repeat(r.count - 1, r.ch) + rest;
      SkipRun(1, r.ch, r.count - 1, rest);
      if runs[1..] != [] {
        MaximalRunsUnique(runs[1..], rest);
        assert runs == [r] + runs[1..];
      } else {
        assert rest == "" && runs == [r];
      }
    }
  }

  lemma HeadDiffers(runs: seq<Run>)
    requires Maximal(runs) && runs != []
    ensures var rest := Expand(runs[1..]); rest == "" || rest[0] != runs[0].ch
    ensures |runs| > 1 ==> Expand(runs[1..]) != ""
  {
    if |runs| > 1 {
      assert runs[1..][0] == runs[1] && Expand(runs[1..])[0] == runs[1].ch;
    }
  }

  lemma HeadRun(count: nat, ch: char, rest: string)
    requires count > 0
    ensures (Repeat(count, ch) + rest)[1..] == Repeat(count - 1, ch) + rest
  {
  }

  lemma {:induction false} SkipRun(count: nat, ch: char, n: nat, rest: string)
    ensures RunsFrom(count, ch, Repeat(n, ch) + rest) == RunsFrom(count + n, ch, rest)
    decreases n
  {
    if n > 0 {
      HeadRun(n, ch, rest);
      SkipRun(count + 1, ch, n - 1, rest);
    } else {
      assert Repeat(0, ch) + rest == rest;
    }
  }
}
