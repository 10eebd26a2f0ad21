/** Sanitising benchmark names for URIs (core/src/codspeed.cpp) and splitting them at the last
    separator (google_benchmark/src/benchmark.cc). */
module BenchUri {

  const ESCAPED := "\\:\\:"

  predicate StartsWithSep(s: string) {
    |s| >= 2 && s[0] == ':' && s[1] == ':'
  }

  predicate HasSep(s: string) {
    exists i :: 0 <= i < |s| - 1 && s[i] == ':' && s[i + 1] == ':'
  }

  /** Where the first separator of s starts, -1 when there is none. */
  function FirstSep(s: string): (r: int)
    ensures r == -1 || 0 <= r < |s| - 1
  {
    if |s| < 2 then -1
    else if StartsWithSep(s) then 0
    else
      var r := FirstSep(s[1..]);
      if r == -1 then -1 else r + 1
  }

  /** std::string::find of "::" from position `from`; -1 is npos. */
  function FindSep(s: string, from: nat): (r: int)
    requires from <= |s|
  {
    var r := FirstSep(s[from..]);
    if r == -1 then -1 else from + r
  }

  /** std::string::rfind of "::". */
  function LastSep(s: string): (r: int)
    ensures r == -1 || (0 <= r < |s| - 1 && s[r] == ':' && s[r + 1] == ':')
    ensures forall i :: r < i < |s| - 1 ==> !(s[i] == ':' && s[i + 1] == ':')
  {
    if |s| < 2 then -1
    else if s[|s| - 2] == ':' && s[|s| - 1] == ':' then |s| - 2
    else LastSep(s[..|s| - 1])
  }

  /** std::string::rfind of '['. */
  function LastOpen(s: string): (r: int)
    ensures r == -1 || (0 <= r < |s| && s[r] == '[')
    ensures forall i :: r < i < |s| ==> s[i] != '['
  {
    if s == "" then -1 else if s[|s| - 1] == '[' then |s| - 1 else LastOpen(s[..|s| - 1])
  }

  /** Replacing "::" from left to right, never looking back into a replacement. */
  function ReplaceAll(s: string, mark: string): string {
    if |s| < 2 then s
    else if StartsWithSep(s) then mark + ReplaceAll(s[2..], mark)
    else [s[0]] + ReplaceAll(s[1..], mark)
  }

  function Escape(s: string): string {
    ReplaceAll(s, ESCAPED)
  }

  /** The text ends with a bracket group. */
  predicate HasGroup(text: string) {
    text != "" && text[|text| - 1] == ']' && LastOpen(text) >= 0
  }

  /** What is between the last '[' and the final ']'. */
  function Group(text: string): string
    requires HasGroup(text)
  {
    text[LastOpen(text) + 1..|text| - 1]
  }

  function Before(text: string): string
    requires HasGroup(text)
  {
    text[..LastOpen(text)]
  }

  function Sanitize(text: string): string {
    if HasGroup(text) then Before(text) + "[" + Escape(Group(text)) + "]" else text
  }

  // ---------------------------------------------------------------- the loop

  /** The last character of an empty text is read: the result is not defined. */
  method SanitizeBenchArgs(text: string) returns (defined: bool, result: string)
    ensures defined <==> text != ""
    ensures defined ==> result == Sanitize(text)
    ensures text != "" && (text[|text| - 1] != ']' || '[' !in text) ==> result == text
  {
    result := text;
    OthersUnchanged(text);
    if |text| == 0 {
      return false, result;
    }
    defined := true;
    if text[|text| - 1] == ']' {
      var posOpen := LastOpen(text);
      if posOpen != -1 {
        var posClose := |text| - 1;
        var substring := ReplaceSeps(text[posOpen + 1..posClose], ESCAPED);
        result := text[..posOpen + 1] + substring + text[posClose..];
        assert text[..posOpen + 1] == text[..posOpen] + "[";
      }
    }
  }

  method ReplaceSeps(group: string, replace: string) returns (substring: string)
    ensures substring == ReplaceAll(group, replace)
  {
    substring := group;
    ghost var done, rest := "", group;
    var pos := FindSep(substring, 0);
    assert group[0..] == group;
    while pos != -1
      invariant substring == done + rest && ReplaceAll(group, replace) == done + ReplaceAll(rest, replace)
      invariant pos == if FirstSep(rest) == -1 then -1 else |done| + FirstSep(rest)
      decreases |rest|
    {
      ghost var f := FirstSep(rest);
      ReplaceOne(done, rest, replace);
      substring := substring[..pos] + replace + substring[pos + 2..];
      done, rest := done + rest[..f] + replace, rest[f + 2..];
      assert substring[|done|..] == rest;
      pos := FindSep(substring, pos + |replace|);
    }
    ReplaceAtFirst(rest, replace);
  }

  lemma ReplaceOne(done: string, rest: string, mark: string)
    requires FirstSep(rest) != -1
    ensures var f, all := FirstSep(rest), done + rest;
      && f + 2 <= |rest|
      && all[..|done| + f] + mark + all[|done| + f + 2..] == (done + rest[..f] + mark) + rest[f + 2..]
      && done + ReplaceAll(rest, mark) == (done + rest[..f] + mark) + ReplaceAll(rest[f + 2..], mark)
  {
    var f := FirstSep(rest);
    ReplaceAtFirst(rest, mark);
    Splice(done, rest, f, mark, ReplaceAll(rest[f + 2..], mark));
  }

  /** Replacing the two characters at f of `rest` in `done + rest`. */
  lemma Splice(done: string, rest: string, f: nat, mark: string, tail: string)
    requires f + 2 <= |rest|
    ensures (done + rest)[..|done| + f] + mark + (done + rest)[|done| + f + 2..] == (done + rest[..f] + mark) + rest[f + 2..]
    ensures done + (rest[..f] + mark + tail) == (done + rest[..f] + mark) + tail
  {
  }

  lemma Prepend(s: string, f: nat, mark: string, tail: string)
    requires f + 2 < |s|
    ensures s[1..][f + 2..] == s[f + 3..]
    ensures [s[0]] + (s[1..][..f] + mark + tail) == s[..f + 1] + mark + tail
  {
  }

  /** Up to the first separator, replacing copies. */
  lemma {:induction false} ReplaceAtFirst(s: string, mark: string)
    ensures var f := FirstSep(s);
      ReplaceAll(s, mark) == if f == -1 then s else s[..f] + mark + ReplaceAll(s[f + 2..], mark)
  {
    if |s| >= 2 && !StartsWithSep(s) {
      var t := s[1..];
      var f := FirstSep(t);
      ReplaceAtFirst(t, mark);
      if f != -1 {
        Prepend(s, f, mark, ReplaceAll(t[f + 2..], mark));
      }
    }
  }

  /** FirstSep finds the first place where two colons meet. */
  lemma {:induction false} FirstSepIsFirst(s: string)
    ensures FirstSep(s) == -1 <==> !HasSep(s)
    ensures FirstSep(s) != -1 ==> s[FirstSep(s)] == ':' && s[FirstSep(s) + 1] == ':'
    ensures FirstSep(s) != -1 ==> !HasSep(s[..FirstSep(s) + 1])
  {
    if |s| >= 2 && !StartsWithSep(s) {
      FirstSepIsFirst(s[1..]);
      SepInConcat([s[0]], s[1..]);
      var f := FirstSep(s[1..]);
      if f != -1 {
        assert s[..f + 2] == [s[0]] + s[1..][..f + 1];
        SepInConcat([s[0]], s[1..][..f + 1]);
      }
    } else if StartsWithSep(s) {
      assert s[0] == ':' && s[0 + 1] == ':';
    }
  }

  // ---------------------------------------------------------------- when the result is clean

  /** A longest stretch of colons. */
  predicate IsColonRun(s: string, i: int, j: int) {
    && 0 <= i < j <= |s|
    && (forall k :: i <= k < j ==> s[k] == ':')
    && (i == 0 || s[i - 1] != ':')
    && (j == |s| || s[j] != ':')
  }

  /** Some stretch of colons has odd length three or more. */
  ghost predicate HasOddRun(s: string) {
    exists i, j :: IsColonRun(s, i, j) && (j - i) % 2 == 1 && j - i >= 3
  }

  function LeadingColons(s: string): (r: nat)
    ensures r <= |s| && (forall k :: 0 <= k < r ==> s[k] == ':') && (r == |s| || s[r] != ':')
  {
    if s == "" || s[0] != ':' then 0 else 1 + LeadingColons(s[1..])
  }

  /** Escaping leaves a separator behind: seen from the left, two at a time. */
  predicate LeavesSep(s: string) {
    if |s| < 2 then false
    else if StartsWithSep(s) then (LeadingColons(s) == 3) || LeavesSep(s[2..])
    else LeavesSep(s[1..])
  }

  lemma SepInConcat(a: string, b: string)
    ensures HasSep(a + b) <==> HasSep(a) || HasSep(b) || (a != "" && b != "" && a[|a| - 1] == ':' && b[0] == ':')
  {
    var s := a + b;
    if i :| 0 <= i < |a| - 1 && a[i] == ':' && a[i + 1] == ':' {
      assert s[i] == ':' && s[i + 1] == ':';
    }
    if i :| 0 <= i < |b| - 1 && b[i] == ':' && b[i + 1] == ':' {
      assert s[|a| + i] == ':' && s[|a| + i + 1] == ':';
    }
    if a != "" && b != "" && a[|a| - 1] == ':' && b[0] == ':' {
      assert s[|a| - 1] == ':' && s[|a| - 1 + 1] == ':';
    }
    if i :| 0 <= i < |s| - 1 && s[i] == ':' && s[i + 1] == ':' {
      if i >= |a| {
        assert b[i - |a|] == ':' && b[i - |a| + 1] == ':';
      } else if i + 1 < |a| {
        assert a[i] == ':' && a[i + 1] == ':';
      }
    }
  }

  lemma {:induction false} EscapeLeaves(s: string)
    ensures HasSep(Escape(s)) <==> LeavesSep(s)
    ensures Escape(s) != "" && Escape(s)[0] == ':' <==> LeadingColons(s) == 1
  {
    if |s| >= 2 {
      if StartsWithSep(s) {
        EscapeLeaves(s[2..]);
        SepInConcat(ESCAPED, Escape(s[2..]));
        assert LeadingColons(s) == 2 + LeadingColons(s[2..]);
      } else {
        EscapeLeaves(s[1..]);
        SepInConcat([s[0]], Escape(s[1..]));
      }
    }
  }

  lemma {:induction false} RunLeaves(s: string)
    requires LeadingColons(s) > 0
    ensures var r := LeadingColons(s);
      LeavesSep(s) <==> (r % 2 == 1 && r >= 3) || LeavesSep(s[r..])
  {
    var r := LeadingColons(s);
    if r == 1 {
    } else {
      assert r == 2 + LeadingColons(s[2..]);
      if r > 2 {
        RunLeaves(s[2..]);
        assert s[2..][r - 2..] == s[r..];
      }
    }
  }

  /** Runs after the first r characters are runs of the rest, when a run may not cross over. */
  lemma RunsOfRest(s: string, n: nat)
    requires 0 < n <= |s| && (s[n - 1] != ':' || n == |s| || s[n] != ':')
    ensures HasOddRun(s[n..]) <==> exists i, j :: i >= n && IsColonRun(s, i, j) && (j - i) % 2 == 1 && j - i >= 3
  {
    var t := s[n..];
    if i, j :| IsColonRun(t, i, j) && (j - i) % 2 == 1 && j - i >= 3 {
      assert IsColonRun(s, i + n, j + n) by {
        forall k | i + n <= k < j + n ensures s[k] == ':' {
          assert t[k - n] == ':';
        }
      }
    }
    if i, j :| i >= n && IsColonRun(s, i, j) && (j - i) % 2 == 1 && j - i >= 3 {
      assert IsColonRun(t, i - n, j - n);
    }
  }

  lemma LeadingRun(s: string, i: int, j: int)
    ensures IsColonRun(s, i, j) && i < LeadingColons(s) ==> i == 0 && j == LeadingColons(s)
  {
    if 0 < i < LeadingColons(s) {
      assert s[i - 1] == ':';
    }
  }

  lemma {:induction false} LeavesOddRun(s: string)
    ensures LeavesSep(s) <==> HasOddRun(s)
    decreases |s|
  {
    var r := LeadingColons(s);
    if s == "" {
    } else if r == 0 {
      LeavesOddRun(s[1..]);
      RunsOfRest(s, 1);
    } else {
      RunLeaves(s);
      LeavesOddRun(s[r..]);
      RunsOfRest(s, r);
      assert IsColonRun(s, 0, r);
      forall i, j | IsColonRun(s, i, j) ensures i < r ==> i == 0 && j == r {
        LeadingRun(s, i, j);
      }
    }
  }

  /** The escaped group is free of separators exactly when no stretch of colons in the group has
      odd length three or more. */
  lemma CleanExactlyWhen(group: string)
    ensures !HasSep(Escape(group)) <==> !HasOddRun(group)
  {
    EscapeLeaves(group);
    LeavesOddRun(group);
  }

  // ---------------------------------------------------------------- idempotence and splitting

  lemma {:induction false} EscapeKeepsBrackets(s: string)
    requires forall i :: 0 <= i < |s| ==> s[i] != '['
    ensures forall i :: 0 <= i < |Escape(s)| ==> Escape(s)[i] != '['
  {
    if |s| >= 2 {
      var first := if StartsWithSep(s) then ESCAPED else s[..1];
      var rest := if StartsWithSep(s) then s[2..] else s[1..];
      EscapeKeepsBrackets(rest);
      assert Escape(s) == first + Escape(rest);
      assert forall i :: 0 <= i < |first| ==> first[i] != '[';
    }
  }

  lemma {:induction false} EscapeGrows(s: string)
    ensures if HasSep(s) then |Escape(s)| > |s| else Escape(s) == s
  {
    if |s| >= 2 {
      var first := if StartsWithSep(s) then s[..2] else s[..1];
      var rest := if StartsWithSep(s) then s[2..] else s[1..];
      EscapeGrows(rest);
      assert s == first + rest;
      SepInConcat(first, rest);
    }
  }

  lemma {:induction false} LastOpenAt(a: string, b: string)
    requires forall i :: 0 <= i < |b| ==> b[i] != '['
    ensures LastOpen(a + "[" + b) == |a|
  {
    var s := a + "[" + b;
    if b == "" {
      assert s[|s| - 1] == '[';
    } else {
      assert s[|s| - 1] == b[|b| - 1];
      assert s[..|s| - 1] == a + "[" + b[..|b| - 1];
      LastOpenAt(a, b[..|b| - 1]);
    }
  }

  /** The sanitised name differs only inside the group. */
  lemma OnlyTheGroupChanges(text: string)
    requires HasGroup(text)
    ensures HasGroup(Sanitize(text)) && Before(Sanitize(text)) == Before(text)
    ensures Group(Sanitize(text)) == Escape(Group(text))
  {
    var e := Escape(Group(text));
    EscapeKeepsBrackets(Group(text));
    LastOpenAt(Before(text), e + "]");
    assert Sanitize(text) == Before(text) + "[" + (e + "]");
  }

  /** Whatever does not end with a bracket group is left alone. */
  lemma OthersUnchanged(text: string)
    ensures text == "" || text[|text| - 1] != ']' || '[' !in text ==> Sanitize(text) == text
  {
  }

  /** The group at the end is escaped, and nothing else. */
  lemma GroupIsEscaped(before: string, group: string)
    requires forall i :: 0 <= i < |group| ==> group[i] != '['
    ensures Sanitize(before + "[" + group + "]") == before + "[" + Escape(group) + "]"
  {
    FindsTheBracket(before + "[" + group + "]", before, group);
  }

  /** Escaping replaces the first separator by its two colons with a backslash in front of each, and goes on
      behind it; without a separator there is nothing to do. */
  lemma EscapesTheFirst(a: string, b: string)
    requires !HasSep(a + ":")
    ensures Escape(a) == a && Escape(a + "::" + b) == a + "\\:\\:" + Escape(b)
  {
    var s := a + "::" + b;
    SepInConcat(a, ":");
    FirstSepIsFirst(a);
    ReplaceAtFirst(a, ESCAPED);
    ReplaceAtFirst(s, ESCAPED);
    FirstAt(a, b);
    assert s[..|a|] == a && s[|a| + 2..] == b;
  }

  lemma {:induction false} FirstAt(a: string, b: string)
    requires !HasSep(a + ":")
    ensures FirstSep(a + "::" + b) == |a|
  {
    var s, t := a + "::" + b, a + ":";
    if a != "" {
      assert s[1] == t[1] && !(t[0] == ':' && t[0 + 1] == ':');
      assert s[1..] == a[1..] + "::" + b && t == [a[0]] + (a[1..] + ":");
      SepInConcat([a[0]], a[1..] + ":");
      FirstAt(a[1..], b);
    }
  }

  function Unescape(s: string): string {
    if s == "" then ""
    else if s[0] == '\\' then Unescape(s[1..])
    else [s[0]] + Unescape(s[1..])
  }

  /** Escaping only adds backslashes: without them the group is what it was. */
  lemma {:induction false} UnescapeEscaped(s: string)
    requires forall i :: 0 <= i < |s| ==> s[i] != '\\'
    ensures Unescape(Escape(s)) == s
  {
    if |s| >= 2 {
      if StartsWithSep(s) {
        UnescapeEscaped(s[2..]);
        UnescapeMark(Escape(s[2..]));
        assert s == "::" + s[2..];
      } else {
        UnescapeEscaped(s[1..]);
        UnescapeFirst(s[0], Escape(s[1..]));
      }
    } else if s != "" {
      UnescapeFirst(s[0], "");
    }
  }

  lemma UnescapeFirst(c: char, s: string)
    ensures Unescape([c] + s) == if c == '\\' then Unescape(s) else [c] + Unescape(s)
  {
    assert ([c] + s)[1..] == s;
  }

  lemma UnescapeMark(s: string)
    ensures Unescape(ESCAPED + s) == "::" + Unescape(s)
  {
    assert ESCAPED + s == ['\\'] + ([':'] + (['\\'] + ([':'] + s)));
    UnescapeFirst('\\', [':'] + (['\\'] + ([':'] + s)));
    UnescapeFirst(':', ['\\'] + ([':'] + s));
    UnescapeFirst('\\', [':'] + s);
    UnescapeFirst(':', s);
  }

  /** Sanitising twice is sanitising once exactly when the group has no odd stretch of three or
      more colons. */
  lemma IdempotentExactlyWhen(text: string)
    ensures Sanitize(Sanitize(text)) == Sanitize(text) <==> !(HasGroup(text) && HasOddRun(Group(text)))
  {
    if HasGroup(text) {
      var e := Escape(Group(text));
      OnlyTheGroupChanges(text);
      CleanExactlyWhen(Group(text));
      EscapeGrows(e);
      assert |Sanitize(Sanitize(text))| - |Sanitize(text)| == |Escape(e)| - |e|;
    }
  }

  /** The walltime report's name and URI for a sanitised benchmark name. */
  function SplitUri(uri: string): (string, string) {
    var pos := LastSep(uri);
    if pos != -1 then (uri[pos + 2..], uri) else (uri, "unknown_file::" + uri)
  }

  lemma LastSepOfPrefix(a: string, b: string)
    requires !HasSep(b) && (a == "" || b == "" || a[|a| - 1] != ':' || b[0] != ':')
    ensures LastSep(a + b) == LastSep(a)
  {
    var s, r := a + b, LastSep(a);
    if r >= 0 {
      assert s[r] == ':' && s[r + 1] == ':';
    }
    forall i | r < i < |s| - 1 ensures !(s[i] == ':' && s[i + 1] == ':') {
      if i >= |a| {
        assert s[i] == b[i - |a|] && s[i + 1] == b[i - |a| + 1];
      } else if i + 1 < |a| {
        assert s[i] == a[i] && s[i + 1] == a[i + 1];
      }
    }
  }

  function NameStart(text: string): nat {
    if LastSep(text) == -1 then 0 else LastSep(text) + 2
  }

  /** A clean group does not move the last separator; in another one the last separator stays inside. */
  lemma LastSepOfName(before: string, e: string)
    ensures if HasSep(e) then LastSep(before + "[" + e + "]") > |before|
            else LastSep(before + "[" + e + "]") == LastSep(before)
  {
    if HasSep(e) {
      SepStaysInside(before + "[", e, "]");
      assert |before + "["| == |before| + 1;
    } else {
      LastSepOfCleanName(before, e);
    }
  }

  lemma LastSepOfCleanName(before: string, e: string)
    requires !HasSep(e)
    ensures LastSep(before + "[" + e + "]") == LastSep(before)
  {
    var tail := "[" + (e + "]");
    SepInConcat(e, "]");
    SepInConcat("[", e + "]");
    LastSepOfPrefix(before, tail);
    assert before + "[" + e + "]" == before + tail;
  }

  lemma SepStaysInside(a: string, e: string, b: string)
    requires HasSep(e)
    ensures LastSep(a + e + b) >= |a|
  {
    var s := a + e + b;
    var i :| 0 <= i < |e| - 1 && e[i] == ':' && e[i + 1] == ':';
    assert s[|a| + i] == ':' && s[|a| + i + 1] == ':';
  }

  /** The name from the last separator of `before` on. */
  lemma SplitName(before: string, e: string)
    requires !HasSep(e)
    ensures SplitUri(before + "[" + e + "]").0 == before[NameStart(before)..] + ("[" + (e + "]"))
  {
    var tail := "[" + (e + "]");
    LastSepOfName(before, e);
    assert before + "[" + e + "]" == before + tail;
    DropOfConcat(before, tail, NameStart(before));
    assert (before + tail)[0..] == before + tail;
  }

  lemma DropOfConcat(a: string, b: string, n: nat)
    requires n <= |a|
    ensures (a + b)[n..] == a[n..] + b
  {
  }

  /** The split is at the last separator before the bracket exactly when the group has no odd stretch of
      three or more colons; otherwise it is inside the bracket. */
  lemma SplitsExactlyWhen(text: string)
    requires HasGroup(text)
    ensures LastSep(Sanitize(text)) == LastSep(Before(text)) <==> !HasOddRun(Group(text))
    ensures HasOddRun(Group(text)) ==> LastSep(Sanitize(text)) > |Before(text)|
  {
    CleanExactlyWhen(Group(text));
    LastSepOfName(Before(text), Escape(Group(text)));
  }

  /** The part of a name that sanitising leaves alone, and what becomes of the rest. */
  function Kept(text: string): string {
    if text != "" && text[|text| - 1] == ']' && '[' in text then text[..LastOpen(text)] else text
  }

  function Changed(text: string): string {
    if text != "" && text[|text| - 1] == ']' && '[' in text then "[" + (Escape(text[LastOpen(text) + 1..|text| - 1]) + "]")
    else ""
  }

  /** Then the name starts after the last separator of the part in front of the group, which is the whole text
      when there is no group, and the URI is the sanitised name, with a placeholder in front when that part
      has no separator. */
  lemma SplitsBeforeTheBracket(text: string)
    requires HasGroup(text) ==> !HasOddRun(Group(text))
    ensures SplitUri(Sanitize(text)).0 == Kept(text)[NameStart(Kept(text))..] + Changed(text)
    ensures SplitUri(Sanitize(text)).1
         == (if HasSep(Kept(text)) then Sanitize(text) else "unknown_file::" + Sanitize(text))
  {
    if HasGroup(text) {
      CleanExactlyWhen(Group(text));
      SplitName(Before(text), Escape(Group(text)));
      LastSepOfName(Before(text), Escape(Group(text)));
    } else {
      assert text[NameStart(text)..] + "" == text[NameStart(text)..];
    }
  }

  /** The split is at the last separator: the name has none, not even together with a colon in front. */
  lemma SplitsAtTheLast(uri: string)
    ensures var (name, full) := SplitUri(uri);
      if HasSep(uri) then full == uri && !HasSep(":" + name) && uri == uri[..LastSep(uri)] + "::" + name
      else full == "unknown_file::" + uri && name == uri
  {
    var r := LastSep(uri);
    if HasSep(uri) {
      assert uri[r..r + 2] == "::";
      assert uri == uri[..r] + uri[r..r + 2] + uri[r + 2..];
      var t := ":" + uri[r + 2..];
      forall i | 0 <= i < |t| - 1 ensures !(t[i] == ':' && t[i + 1] == ':') {
        assert t[i] == uri[r + 1 + i] && t[i + 1] == uri[r + 1 + i + 1];
      }
    }
  }

  // ---------------------------------------------------------------- the URI of an instrumented benchmark

  /** CodSpeed::start_benchmark: the placeholder goes in front of the name as it was given. */
  method StartBenchmark(name: string) returns (defined: bool, uri: string)
    ensures defined <==> name != ""
    ensures defined ==> uri == StartedUri(name)
  {
    defined, uri := SanitizeBenchArgs(name);
    assert name[0..] == name;
    FirstSepIsFirst(name);
    if FindSep(name, 0) == -1 {
      uri := "unknown_file::" + name;
    }
  }

  function StartedUri(name: string): string {
    if HasSep(name) then Sanitize(name) else "unknown_file::" + name
  }

  lemma TextOfGroup(text: string)
    requires HasGroup(text)
    ensures text == Before(text) + "[" + Group(text) + "]"
  {
  }

  lemma SepInBrackets(before: string, group: string)
    ensures HasSep(before + "[" + group + "]") <==> HasSep(before) || HasSep(group)
  {
    SepInConcat(before, "[");
    SepInConcat(before + "[", group);
    SepInConcat(before + "[" + group, "]");
  }

  /** The URI of a started benchmark has a separator unless all separators of the name are in its group and
      the group is clean when escaped. */
  lemma HasFileExactlyWhen(name: string)
    ensures HasSep(StartedUri(name)) <==>
      !(HasGroup(name) && HasSep(name) && !HasSep(Before(name)) && !HasOddRun(Group(name)))
  {
    if !HasSep(name) {
      var mark := "unknown_file::";
      assert mark[12] == ':' && mark[12 + 1] == ':';
      SepInConcat(mark, name);
    } else if HasGroup(name) {
      CleanExactlyWhen(Group(name));
      SepInBrackets(Before(name), Escape(Group(name)));
      SepInBrackets(Before(name), Group(name));
      TextOfGroup(name);
      assert StartedUri(name) == Before(name) + "[" + Escape(Group(name)) + "]";
    }
  }

  lemma FindsTheBracket(text: string, before: string, group: string)
    requires text == before + "[" + group + "]" && forall i :: 0 <= i < |group| ==> group[i] != '['
    ensures HasGroup(text) && Before(text) == before && Group(text) == group
  {
    assert text == before + "[" + (group + "]");
    LastOpenAt(before, group + "]");
    assert text[|text| - 1] == ']';
  }

  /** Such a name: the placeholder is not added, and the separator is escaped. */
  lemma NoFileInUri(name: string)
    requires name == "a[b::c]"
    ensures HasSep(name) && !HasSep(StartedUri(name))
  {
    assert name[3] == ':' && name[3 + 1] == ':';
    assert name[..|name| - 1] == "a[b::c";
    FindsTheBracket(name, "a", "b::c");
    HasFileExactlyWhen(name);
    LeavesOddRun("b::c");
  }

  /** Of three colons in a row the last two are not replaced, but the next time they are. */
  lemma OddRunStays(text: string)
    requires text == "a[:::]"
    ensures HasGroup(text) && HasOddRun(Group(text)) && HasSep(Escape(Group(text)))
    ensures Sanitize(Sanitize(text)) != Sanitize(text)
  {
    assert text[..|text| - 1] == "a[:::" && text[5] == ']';
    assert "a[:::"[..4] == "a[::" && "a[::"[..3] == "a[:" && "a[:"[..2] == "a[";
    assert LastOpen("a[") == 1;
    assert LastOpen(text) == 1;
    var group := Group(text);
    assert group == ":::";
    assert IsColonRun(group, 0, 3);
    CleanExactlyWhen(group);
    IdempotentExactlyWhen(text);
  }
}
