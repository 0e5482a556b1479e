/** What the two languages take for whitespace. */
module Blanks {
  datatype Dialect = Rust | TypeScript

  /** Whitespace to `trim`: the two languages differ in one character each. */
  predicate IsBlankChar(c: char, d: Dialect) {
    || '\t' <= c <= '\r' || c == ' ' || c == '\U{A0}' || c == '\U{1680}' || '\U{2000}' <= c <= '\U{200A}'
    || c == '\U{2028}' || c == '\U{2029}' || c == '\U{202F}' || c == '\U{205F}' || c == '\U{3000}'
    || (d.Rust? && c == '\U{85}') || (d.TypeScript? && c == '\U{FEFF}')
  }

  predicate Blank(s: string, d: Dialect) {
    forall i :: 0 <= i < |s| ==> IsBlankChar(s[i], d)
  }

  /** The code points with the Unicode property White_Space, which Rust goes by. */
  const WHITE_SPACE: set<int> := {
    9, 10, 11, 12, 13, 32, 0x85, 0xA0, 0x1680, 0x2000, 0x2001, 0x2002, 0x2003, 0x2004, 0x2005, 0x2006, 0x2007, 0x2008,
    0x2009, 0x200A, 0x2028, 0x2029, 0x202F, 0x205F, 0x3000}

  /** JavaScript takes the next-line control for text and the byte order mark for blank. */
  lemma BlanksAreWhiteSpace(c: char)
    ensures IsBlankChar(c, Rust) <==> c as int in WHITE_SPACE
    ensures IsBlankChar(c, TypeScript) <==> (c as int in WHITE_SPACE && c as int != 0x85) || c as int == 0xFEFF
  {}

  function StripStart(s: string, d: Dialect): string {
    if s != "" && IsBlankChar(s[0], d) then StripStart(s[1..], d) else s
  }

  function StripEnd(s: string, d: Dialect): string {
    if s != "" && IsBlankChar(s[|s| - 1], d) then StripEnd(s[..|s| - 1], d) else s
  }

  /** `trim` of either language. */
  function Strip(s: string, d: Dialect): string {
    StripEnd(StripStart(s, d), d)
  }

  lemma {:induction false} StartSplits(s: string, d: Dialect) returns (before: string)
    ensures s == before + StripStart(s, d) && Blank(before, d)
    ensures StripStart(s, d) != "" ==> !IsBlankChar(StripStart(s, d)[0], d)
  {
    hide IsBlankChar;
    before := "";
    if s != "" && IsBlankChar(s[0], d) {
      before := StartSplits(s[1..], d);
      before := [s[0]] + before;
      assert s == [s[0]] + s[1..];
    }
  }

  lemma {:induction false} EndSplits(s: string, d: Dialect) returns (after: string)
    ensures s == StripEnd(s, d) + after && Blank(after, d)
    ensures StripEnd(s, d) != "" ==> !IsBlankChar(StripEnd(s, d)[|StripEnd(s, d)| - 1], d)
  {
    hide IsBlankChar;
    after := "";
    if s != "" && IsBlankChar(s[|s| - 1], d) {
      var rest := EndSplits(s[..|s| - 1], d);
      after := rest + [s[|s| - 1]];
      assert s == s[..|s| - 1] + [s[|s| - 1]];
    }
  }

  /** `trim` takes blanks off both ends, and stops at the first character that is none. */
  lemma StripSplits(s: string, d: Dialect) returns (before: string, after: string)
    ensures s == before + Strip(s, d) + after && Blank(before, d) && Blank(after, d)
    ensures Strip(s, d) != "" ==> !IsBlankChar(Strip(s, d)[0], d) && !IsBlankChar(Strip(s, d)[|Strip(s, d)| - 1], d)
    ensures Strip(s, d) == "" ==> before == s
  {
    hide IsBlankChar;
    before := StartSplits(s, d);
    var rest := StripStart(s, d);
    after := EndSplits(rest, d);
    assert after != "" ==> IsBlankChar(after[0], d);
    if Strip(s, d) != "" {
      assert Strip(s, d)[0] == rest[0];
    }
    assert before + (Strip(s, d) + after) == before + Strip(s, d) + after;
  }

  /** Neither language trims the character that the string starts with. */
  predicate Solid(s: string) {
    s == "" || (!IsBlankChar(s[0], Rust) && !IsBlankChar(s[0], TypeScript))
  }

  lemma LineFeedIsBlank(d: Dialect)
    ensures IsBlankChar('\n', d)
  {}

  lemma BlankAt(s: string, d: Dialect, k: nat)
    requires Blank(s, d) && k < |s|
    ensures IsBlankChar(s[k], d)
  {
    hide IsBlankChar;
  }

  /** One text starts with a character that only the other dialect takes for blank. */
  lemma StartsDiffer(u: string, v: string, d: Dialect, e: Dialect, x: string, y: string)
    requires u != "" && IsBlankChar(u[0], e) && !IsBlankChar(u[0], d) && (v != "" ==> !IsBlankChar(v[0], e))
    ensures u + "\n" + x != v + "\n" + y
  {
    LineFeedIsBlank(d);
    hide IsBlankChar;
    assert (u + "\n" + x)[0] == u[0];
    assert (v + "\n" + y)[0] == if v == "" then '\n' else v[0];
  }

  /** The same start, but more is left at the end in one dialect. */
  lemma EndsDiffer(v: string, more: string, e: Dialect, x: string, y: string)
    requires more != "" && Blank(more, e) && Solid(y)
    ensures v + more + "\n" + x != v + "\n" + y
  {
    LineFeedIsBlank(e);
    if |more| > 1 {
      BlankAt(more, e, 1);
    }
    var second := (more + "\n" + x)[1];
    assert IsBlankChar(second, e);
    hide IsBlankChar, Blank;
    assert (v + more + "\n" + x)[|v| + 1] == second;
    assert y != "" ==> (v + "\n" + y)[|v| + 1] == y[0];
  }

  lemma LongerEndDiffers(s: string, b: string, u: string, a: string, b': string, v: string, a': string, e: Dialect,
                         x: string, y: string)
    requires s == b + u + a == b' + v + a' && Blank(a', e) && |b| == |b'| && |u| > |v| && Solid(y)
    ensures u + "\n" + x != v + "\n" + y
  {
    hide Solid, IsBlankChar;
    var more := u[|v|..];
    assert u == s[|b|..|b| + |u|] && v == s[|b|..|b| + |v|] && a' == s[|b| + |v|..];
    assert more == a'[..|more|];
    assert u == v + more;
    EndsDiffer(v, more, e, x, y);
  }

  /** Dialect `d` keeps more than dialect `e`, at the start or, with the same start, at the end. */
  lemma KeepsMore(s: string, d: Dialect, e: Dialect, b: string, a: string, b': string, a': string,
                  x: string, y: string)
    requires s == b + Strip(s, d) + a == b' + Strip(s, e) + a' && Blank(b', e) && Blank(a', e)
    requires Strip(s, d) == "" ==> b == s
    requires Strip(s, d) != "" ==> !IsBlankChar(Strip(s, d)[0], d)
    requires Strip(s, e) != "" ==> !IsBlankChar(Strip(s, e)[0], e)
    requires |b| < |b'| || (|b| == |b'| && |Strip(s, d)| > |Strip(s, e)|)
    requires Solid(y)
    ensures Strip(s, d) + "\n" + x != Strip(s, e) + "\n" + y
  {
    hide Strip, Solid, IsBlankChar;
    var u, v := Strip(s, d), Strip(s, e);
    if |b| < |b'| {
      assert u[0] == s[|b|] == b'[|b|];
      BlankAt(b', e, |b|);
      StartsDiffer(u, v, d, e, x, y);
    } else {
      LongerEndDiffers(s, b, u, a, b', v, a', e, x, y);
    }
  }

  /** Lines that differ by what the dialects trim off their value cannot be made up for by what follows. */
  lemma StripsDiffer(s: string, x: string, y: string)
    requires Strip(s, Rust) != Strip(s, TypeScript) && Solid(x) && Solid(y)
    ensures Strip(s, Rust) + "\n" + x != Strip(s, TypeScript) + "\n" + y
  {
    hide Strip, Solid, IsBlankChar;
    var b, a := StripSplits(s, Rust);
    var b', a' := StripSplits(s, TypeScript);
    var u, v := Strip(s, Rust), Strip(s, TypeScript);
    assert u == s[|b|..|b| + |u|] && v == s[|b'|..|b'| + |v|];
    if |b| < |b'| || (|b| == |b'| && |u| > |v|) {
      KeepsMore(s, Rust, TypeScript, b, a, b', a', x, y);
    } else {
      KeepsMore(s, TypeScript, Rust, b', a', b, a, y, x);
    }
  }
}
