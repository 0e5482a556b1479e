/** Searching and trimming, as the standard library does it. A character stands for a byte. */
module Text {
  import opened Wrappers

  predicate At(s: string, i: int, needle: string) {
    0 <= i && i + |needle| <= |s| && s[i..i + |needle|] == needle
  }

  function FindFrom(s: string, needle: string, i: nat): (r: Option<nat>)
    ensures r.Some? ==> At(s, r.value, needle)
    decreases |s| - i
  {
    if i + |needle| > |s| then None
    else if At(s, i, needle) then Some(i)
    else FindFrom(s, needle, i + 1)
  }

  function Find(s: string, needle: string): (r: Option<nat>)
    ensures r.Some? ==> At(s, r.value, needle)
  {
    FindFrom(s, needle, 0)
  }

  lemma {:induction false} FindFromIsLeftmost(s: string, needle: string, i: nat)
    ensures var r := FindFrom(s, needle, i);
            if r.Some? then i <= r.value && forall j :: i <= j < r.value ==> !At(s, j, needle)
            else forall j :: i <= j ==> !At(s, j, needle)
    decreases |s| - i
  {
    if i + |needle| <= |s| && !At(s, i, needle) {
      FindFromIsLeftmost(s, needle, i + 1);
    }
  }

  /** `Find` returns the leftmost occurrence, and nothing only if there is none. */
  lemma FindIsLeftmost(s: string, needle: string)
    ensures var r := Find(s, needle);
            if r.Some? then forall j :: 0 <= j < r.value ==> !At(s, j, needle)
            else forall j :: 0 <= j ==> !At(s, j, needle)
  {
    FindFromIsLeftmost(s, needle, 0);
  }

  predicate Occurs(s: string, needle: string) {
    Find(s, needle).Some?
  }

  /** `split(needle)`: what lies between the occurrences, taken from the left. */
  function Split(s: string, needle: string): (parts: seq<string>)
    requires needle != ""
    ensures parts != []
    decreases |s|
  {
    var at := Find(s, needle);
    if at.None? then [s] else [s[..at.value]] + Split(s[at.value + |needle|..], needle)
  }

  predicate StartsWith(s: string, prefix: string) {
    |prefix| <= |s| && s[..|prefix|] == prefix
  }

  predicate EndsWith(s: string, suffix: string) {
    |suffix| <= |s| && s[|s| - |suffix|..] == suffix
  }

  predicate IsDigit(c: char) {
    '0' <= c <= '9'
  }

  function Digit(d: nat): char
    requires d < 10
  {
    '0' + d as char
  }

  /** A number in decimal. */
  function Digits(n: nat): (s: string)
    ensures s != "" && IsDigit(s[0])
  {
    if n < 10 then [Digit(n)] else Digits(n / 10) + [Digit(n % 10)]
  }

  lemma LastDigit(n: nat)
    requires n >= 10
    ensures var s := Digits(n);
            s[|s| - 1] == Digit(n % 10) && s[..|s| - 1] == Digits(n / 10)
  {}

  predicate IsSpace(c: char) {
    c == ' ' || '\t' <= c <= '\r'
  }

  function TrimStart(s: string): string {
    if s != "" && IsSpace(s[0]) then TrimStart(s[1..]) else s
  }

  function TrimEnd(s: string): string {
    if s != "" && IsSpace(s[|s| - 1]) then TrimEnd(s[..|s| - 1]) else s
  }

  function Trim(s: string): string {
    TrimEnd(TrimStart(s))
  }

  function StripSuffix(s: string, suffix: string): string {
    if EndsWith(s, suffix) then s[..|s| - |suffix|] else s
  }

  /** `trim_end_matches`: every copy of the suffix goes. */
  function TrimEndMatches(s: string, suffix: string): string
    requires suffix != ""
    decreases |s|
  {
    if EndsWith(s, suffix) then TrimEndMatches(s[..|s| - |suffix|], suffix) else s
  }

  function LowerChar(c: char): char {
    if 'A' <= c <= 'Z' then c + 32 as char else c
  }

  function Lower(s: string): (l: string)
    ensures |l| == |s| && forall i :: 0 <= i < |s| ==> l[i] == LowerChar(s[i])
  {
    seq(|s|, i requires 0 <= i < |s| => LowerChar(s[i]))
  }

  /** `lines()`: cut at each line feed, which takes a carriage return before it along. */
  function Lines(s: string): seq<string>
    decreases |s|
  {
    if s == "" then []
    else
      var at := Find(s, "\n");
      if at.None? then [s] else [StripSuffix(s[..at.value], "\r")] + Lines(s[at.value + 1..])
  }

  lemma JoinRight(a: string, b: string, c: string)
    ensures a + b + c == a + (b + c)
  {}

  // Occurrences

  predicate Lacks(s: string, c: char) {
    forall i :: 0 <= i < |s| ==> s[i] != c
  }

  lemma AtChar(s: string, i: int, needle: string, k: int)
    requires At(s, i, needle) && 0 <= k < |needle|
    ensures s[i + k] == needle[k]
  {
    assert s[i..i + |needle|][k] == s[i + k];
  }

  lemma AtJoin(a: string, b: string, i: int, needle: string)
    requires At(b, i, needle)
    ensures At(a + b, |a| + i, needle)
  {
    assert (a + b)[|a| + i..|a| + i + |needle|] == b[i..i + |needle|];
  }

  lemma AtLeft(a: string, b: string, i: int, needle: string)
    requires i + |needle| <= |a|
    ensures At(a + b, i, needle) <==> At(a, i, needle)
  {
    if 0 <= i {
      assert (a + b)[i..i + |needle|] == a[i..i + |needle|];
    }
  }

  lemma AtRight(a: string, b: string, i: int, needle: string)
    requires |a| <= i
    ensures At(a + b, i, needle) <==> At(b, i - |a|, needle)
  {
    if i + |needle| <= |a + b| {
      assert (a + b)[i..i + |needle|] == b[i - |a|..i - |a| + |needle|];
    }
  }

  lemma FindIs(s: string, needle: string, i: nat)
    requires At(s, i, needle) && forall j :: 0 <= j < i ==> !At(s, j, needle)
    ensures Find(s, needle) == Some(i)
  {
    FindIsLeftmost(s, needle);
  }

  lemma OccursAt(s: string, needle: string, i: int)
    requires At(s, i, needle)
    ensures Occurs(s, needle)
  {
    FindIsLeftmost(s, needle);
  }

  lemma TooShort(s: string, needle: string)
    requires |s| < |needle|
    ensures !Occurs(s, needle)
  {}

  lemma OccursBetween(a: string, needle: string, b: string)
    ensures Occurs(a + needle + b, needle)
  {
    assert (a + needle + b)[|a|..|a| + |needle|] == needle;
    OccursAt(a + needle + b, needle, |a|);
  }

  /** A needle without the character `c` cannot lie across it. */
  lemma NotAcross(a: string, c: char, b: string, needle: string)
    requires needle != "" && Lacks(needle, c)
    ensures Occurs(a + [c] + b, needle) <==> Occurs(a, needle) || Occurs(b, needle)
  {
    var s := a + [c] + b;
    assert s == a + ([c] + b);
    if Occurs(s, needle) {
      var i := Find(s, needle).value;
      if i + |needle| <= |a| {
        AtLeft(a, [c] + b, i, needle);
        OccursAt(a, needle, i);
      } else if i > |a| {
        AtRight(a + [c], b, i, needle);
        OccursAt(b, needle, i - |a| - 1);
      } else {
        AtChar(s, i, needle, |a| - i);
      }
    }
    if Occurs(a, needle) {
      AtLeft(a, [c] + b, Find(a, needle).value, needle);
      OccursAt(s, needle, Find(a, needle).value);
    }
    if Occurs(b, needle) {
      AtJoin(a + [c], b, Find(b, needle).value, needle);
      OccursAt(s, needle, |a| + 1 + Find(b, needle).value);
    }
  }

  lemma FindShift(a: string, b: string, needle: string)
    requires forall j :: 0 <= j < |a| ==> !At(a + b, j, needle)
    ensures Find(a + b, needle) == (if Find(b, needle).Some? then Some(|a| + Find(b, needle).value) else None)
  {
    FindIsLeftmost(b, needle);
    if Find(b, needle).Some? {
      var i := Find(b, needle).value;
      AtJoin(a, b, i, needle);
      forall j | |a| <= j < |a| + i
        ensures !At(a + b, j, needle)
      {
        AtRight(a, b, j, needle);
      }
      FindIs(a + b, needle, |a| + i);
    } else if Find(a + b, needle).Some? {
      AtRight(a, b, Find(a + b, needle).value, needle);
    }
  }

  /** The delimiter is found right after a piece that it does not occur in and whose last character it
      does not contain. */
  lemma FoundAfter(piece: string, needle: string, rest: string)
    requires needle != "" && !Occurs(piece, needle)
    requires piece != "" ==> Lacks(needle, piece[|piece| - 1])
    ensures Find(piece + needle + rest, needle) == Some(|piece|)
  {
    var s := piece + needle + rest;
    assert At(s, |piece|, needle);
    forall j | 0 <= j < |piece|
      ensures !At(s, j, needle)
    {
      if j + |needle| <= |piece| {
        FindIsLeftmost(piece, needle);
        assert s == piece + (needle + rest);
        AtLeft(piece, needle + rest, j, needle);
      } else if At(s, j, needle) {
        AtChar(s, j, needle, |piece| - 1 - j);
      }
    }
    FindIs(s, needle, |piece|);
  }

  /** Splitting off the first piece. */
  lemma SplitAfter(piece: string, needle: string, rest: string)
    requires needle != "" && !Occurs(piece, needle)
    requires piece != "" ==> Lacks(needle, piece[|piece| - 1])
    ensures Split(piece + needle + rest, needle) == [piece] + Split(rest, needle)
  {
    var s := piece + needle + rest;
    FoundAfter(piece, needle, rest);
    assert s[..|piece|] == piece && s[|piece| + |needle|..] == rest;
  }

  // Trimming

  /** Trimming removes whitespace only, and all of it at both ends. */
  predicate Trimmed(s: string) {
    s != "" ==> !IsSpace(s[0]) && !IsSpace(s[|s| - 1])
  }

  predicate AllSpace(s: string) {
    forall i :: 0 <= i < |s| ==> IsSpace(s[i])
  }

  lemma {:induction false} TrimStartDrops(s: string, t: string)
    requires AllSpace(s)
    ensures TrimStart(s + t) == TrimStart(t)
  {
    if s == "" {
      assert s + t == t;
    } else {
      assert (s + t)[1..] == s[1..] + t;
      TrimStartDrops(s[1..], t);
    }
  }

  lemma {:induction false} TrimEndDrops(s: string, t: string)
    requires AllSpace(t)
    ensures TrimEnd(s + t) == TrimEnd(s)
  {
    if t == "" {
      assert s + t == s;
    } else {
      assert (s + t)[..|s + t| - 1] == s + t[..|t| - 1];
      TrimEndDrops(s, t[..|t| - 1]);
    }
  }

  /** `Trim` is what is left between the whitespace. */
  lemma TrimIs(before: string, core: string, after: string)
    requires AllSpace(before) && AllSpace(after) && Trimmed(core)
    ensures Trim(before + core + after) == core
  {
    if core == "" {
      TrimStartDrops(before + core + after, "");
      assert before + core + after + "" == before + core + after;
    } else {
      TrimStartDrops(before, core + after);
      assert before + (core + after) == before + core + after;
      assert TrimStart(core + after) == core + after;
      TrimEndDrops(core, after);
    }
  }

  lemma {:induction false} StartSplits(s: string) returns (before: string, rest: string)
    ensures s == before + rest && AllSpace(before) && TrimStart(s) == rest
    ensures rest != "" ==> !IsSpace(rest[0])
  {
    before, rest := "", s;
    if s != "" && IsSpace(s[0]) {
      before, rest := StartSplits(s[1..]);
      before := [s[0]] + before;
    }
  }

  lemma {:induction false} EndSplits(s: string) returns (rest: string, after: string)
    ensures s == rest + after && AllSpace(after) && TrimEnd(s) == rest
    ensures rest != "" ==> !IsSpace(rest[|rest| - 1])
  {
    rest, after := s, "";
    if s != "" && IsSpace(s[|s| - 1]) {
      rest, after := EndSplits(s[..|s| - 1]);
      after := after + [s[|s| - 1]];
    }
  }

  lemma TrimSplits(s: string) returns (before: string, core: string, after: string)
    ensures s == before + core + after && AllSpace(before) && AllSpace(after) && Trimmed(core) && Trim(s) == core
  {
    var rest;
    before, rest := StartSplits(s);
    core, after := EndSplits(rest);
    if core != "" {
      assert core[0] == rest[0];
    }
    assert before + (core + after) == before + core + after;
  }

  /** Exactly the six whitespace characters of ASCII are trimmed. */
  lemma SixAreTrimmed(c: char)
    ensures Trim([c]) == (if c in {' ', '\t', '\n', '\U{0B}', '\U{0C}', '\r'} then "" else [c])
  {
    assert [c][1..] == "" && [c][..0] == "";
    assert TrimStart("") == "" && TrimEnd("") == "";
  }

  /** Whitespace at the end makes no difference. */
  lemma TrimIgnoresEnd(s: string, more: string)
    requires AllSpace(more)
    ensures Trim(s + more) == Trim(s)
  {
    var before, core, after := TrimSplits(s);
    assert s + more == before + core + (after + more);
    TrimIs(before, core, after + more);
  }

  lemma {:induction false} TrimEndMatchesSplits(s: string, suffix: string) returns (rest: string, after: string)
    requires suffix != "" && AllSpace(suffix)
    ensures s == rest + after && AllSpace(after) && TrimEndMatches(s, suffix) == rest
    decreases |s|
  {
    rest, after := s, "";
    if EndsWith(s, suffix) {
      var shorter := s[..|s| - |suffix|];
      assert s == shorter + suffix;
      rest, after := TrimEndMatchesSplits(shorter, suffix);
      assert rest + (after + suffix) == rest + after + suffix;
      after := after + suffix;
    }
  }
}
