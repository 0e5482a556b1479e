/** What the lists say about the prompt, and when the two services build the same one. */
module MetaListAgreement {
  import opened Text
  import opened Blanks
  import opened MetaList

  // The cut

  function Joined(pieces: seq<Piece>): string {
    if pieces == [] then "" else pieces[0].text + Joined(pieces[1..])
  }

  lemma {:induction false} JoinedJoins(a: seq<Piece>, b: seq<Piece>)
    ensures Joined(a + b) == Joined(a) + Joined(b)
  {
    if a == [] {
      assert a + b == b;
    } else {
      assert (a + b)[1..] == a[1..] + b;
      JoinedJoins(a[1..], b);
    }
  }

  lemma JoinedOne(p: Piece)
    ensures Joined([p]) == p.text
  {
    assert [p][1..] == [];
  }

  lemma PlainJoined(s: string, from: nat, to: nat)
    requires from <= to <= |s|
    ensures Joined(PlainPiece(s, from, to)) == s[from..to]
  {
    if from < to {
      JoinedOne(Plain(s[from..to]));
    }
  }

  lemma SlicesJoin(s: string, a: nat, b: nat, c: nat)
    requires a <= b <= c <= |s|
    ensures s[a..b] + (s[b..c] + s[c..]) == s[a..]
  {}

  /** Nothing of the prompt is lost or moved by cutting it. */
  lemma {:induction false} PiecesMakeThePrompt(s: string, i: nat, d: Dialect)
    requires i <= |s|
    ensures Joined(Pieces(s, i, d)) == s[i..]
    decreases |s| - i
  {
    hide Joined;
    var at := NextMatch(s, i, d);
    PlainJoined(s, i, at);
    if at == |s| {
      assert s[i..at] == s[i..];
    } else {
      var ref, end := RefPiece(s, at, d), MatchEnd(s, at, d);
      var rest := Pieces(s, end, d);
      PiecesMakeThePrompt(s, end, d);
      JoinedJoins(PlainPiece(s, i, at), [ref] + rest);
      JoinedJoins([ref], rest);
      JoinedOne(ref);
      SlicesJoin(s, i, at, end);
    }
  }

  ghost predicate NoMatch(s: string, d: Dialect) {
    forall i: nat :: !MatchAt(s, i, d)
  }

  lemma ImageInside(s: string, from: nat, to: nat, i: nat, d: Dialect)
    requires from <= i && i + 5 <= to <= |s|
    ensures IsImage(s[from..to], i - from, d) <==> IsImage(s, i, d)
  {
    var t, k := s[from..to], i - from;
    var inner, outer := t[k..k + 5], s[i..i + 5];
    assert forall j :: 0 <= j < 5 ==> inner[j] == outer[j];
    assert inner == outer;
  }

  lemma ImageIsLetters(s: string, i: nat, d: Dialect)
    requires IsImage(s, i, d)
    ensures i + 5 <= |s| && !IsDigit(s[i]) && s[i] != PICTURE && forall k :: i <= k < i + 5 ==> s[k] != '@'
  {
    var five := s[i..i + 5];
    assert forall k :: 0 <= k < 5 ==> five[k] == s[i + k];
    if d.Rust? {
      assert forall k :: 0 <= k < 5 ==> five[k] == IMAGE[k];
    } else {
      assert forall k :: 0 <= k < 5 ==> LowerChar(five[k]) == IMAGE[k];
    }
    assert forall k :: i <= k < i + 5 ==> s[k] == five[k - i];
  }

  lemma CharInside(s: string, from: nat, to: nat, i: nat)
    requires from <= i < to <= |s|
    ensures s[from..to][i - from] == s[i]
  {}

  /** The digits start at the same place in a stretch, unless the stretch cuts the word `image`. */
  lemma DigitsInside(s: string, from: nat, to: nat, i: nat, d: Dialect)
    requires from <= i && i + 1 < to <= |s|
    requires i + 6 <= to || !IsImage(s, i + 1, d)
    ensures DigitsAt(s, i, d) == from + DigitsAt(s[from..to], i - from, d)
  {
    hide IsImage;
    CharInside(s, from, to, i + 1);
    if i + 6 <= to {
      ImageInside(s, from, to, i + 1, d);
    }
  }

  /** A placeholder of a stretch is one of the prompt. */
  lemma MatchOfStretch(s: string, from: nat, to: nat, k: nat, d: Dialect)
    requires from <= to <= |s| && MatchAt(s[from..to], k, d)
    ensures MatchAt(s, from + k, d)
  {
    hide IsImage;
    var i := from + k;
    CharInside(s, from, to, i);
    CharInside(s, from, to, i + 1);
    if i + 6 > to && IsImage(s, i + 1, d) {
      ImageIsLetters(s, i + 1, d);
    }
    DigitsInside(s, from, to, i, d);
    CharInside(s, from, to, DigitsAt(s, i, d));
  }

  /** Between its `@` and its end a placeholder has no other `@`. */
  lemma NoAtInside(s: string, at: nat, d: Dialect)
    requires MatchAt(s, at, d)
    ensures forall k :: at < k < MatchEnd(s, at, d) ==> s[k] != '@'
  {
    if IsImage(s, at + 1, d) {
      ImageIsLetters(s, at + 1, d);
    }
    hide IsImage;
  }

  lemma MatchReaches(s: string, from: nat, to: nat, at: nat, d: Dialect)
    requires from <= at < to <= |s| && MatchAt(s, at, d) && DigitsAt(s, at, d) < to
    ensures MatchAt(s[from..to], at - from, d)
    ensures DigitsAt(s, at, d) == from + DigitsAt(s[from..to], at - from, d)
  {
    hide IsImage;
    if IsImage(s, at + 1, d) {
      ImageIsLetters(s, at + 1, d);
    }
    DigitsInside(s, from, to, at, d);
    CharInside(s, from, to, at);
    CharInside(s, from, to, DigitsAt(s, at, d));
  }

  /** A placeholder that starts in a stretch lies in it, if the stretch ends at an `@` or at the end. */
  lemma MatchInStretch(s: string, from: nat, to: nat, at: nat, d: Dialect)
    requires from <= at < to <= |s| && MatchAt(s, at, d) && (to < |s| ==> s[to] == '@')
    ensures MatchAt(s[from..to], at - from, d)
  {
    hide IsImage;
    NoAtInside(s, at, d);
    assert DigitsAt(s, at, d) < to;
    MatchReaches(s, from, to, at, d);
  }

  lemma AllDigits(s: string, i: nat)
    requires i <= |s| && forall k :: i <= k < |s| ==> IsDigit(s[k])
    ensures DigitsEnd(s, i) == |s|
  {}

  /** A reference is one whole placeholder with all its digits, and its number is what they say. */
  lemma RefIsWhole(s: string, at: nat, d: Dialect)
    requires MatchAt(s, at, d)
    ensures var p := RefPiece(s, at, d);
            && p.Ref? && MatchAt(p.text, 0, d) && MatchEnd(p.text, 0, d) == |p.text|
            && p.number == Number(p.text[DigitsAt(p.text, 0, d)..])
  {
    var digits, end := DigitsAt(s, at, d), MatchEnd(s, at, d);
    var t := s[at..end];
    MatchReaches(s, at, end, at, d);
    assert forall k :: digits - at <= k < |t| ==> t[k] == s[at + k];
    AllDigits(t, digits - at);
    assert t[digits - at..] == s[digits..end];
    hide IsImage, Number;
  }

  /** Plain pieces hold no placeholder; a piece is never longer than the prompt. */
  lemma {:induction false} PlainPiecesArePlain(s: string, i: nat, d: Dialect, p: Piece)
    requires i <= |s| && p in Pieces(s, i, d) && p.Plain?
    ensures p.text != "" && |p.text| <= |s| && NoMatch(p.text, d)
    decreases |s| - i
  {
    var at := NextMatch(s, i, d);
    if i < at && p == Plain(s[i..at]) {
      forall k: nat
        ensures !MatchAt(p.text, k, d)
      {
        if MatchAt(s[i..at], k, d) {
          MatchOfStretch(s, i, at, k, d);
        }
      }
    } else if at < |s| {
      PlainPiecesArePlain(s, MatchEnd(s, at, d), d, p);
    }
  }

  /** The other pieces are whole placeholders of the prompt. */
  lemma {:induction false} RefPiecesAreWhole(s: string, i: nat, d: Dialect, p: Piece)
    requires i <= |s| && p in Pieces(s, i, d) && p.Ref?
    ensures MatchAt(p.text, 0, d) && MatchEnd(p.text, 0, d) == |p.text|
    ensures p.number == Number(p.text[DigitsAt(p.text, 0, d)..])
    decreases |s| - i
  {
    hide RefPiece, MatchAt, DigitsAt, Number;
    var at := NextMatch(s, i, d);
    if at < |s| {
      if p == RefPiece(s, at, d) {
        RefIsWhole(s, at, d);
      } else {
        RefPiecesAreWhole(s, MatchEnd(s, at, d), d, p);
      }
    }
  }

  /** A decimal number after the `@` is the number of the placeholder. */
  lemma {:induction false} NumberOfDigits(n: nat)
    ensures Number(Digits(n)) == n
  {
    if n >= 10 {
      LastDigit(n);
      NumberOfDigits(n / 10);
    } else {
      assert Digits(n)[..0] == "" && Number("") == 0;
    }
  }

  // The entries

  lemma {:induction false} EntryHasPiece(pieces: seq<Piece>, materials: seq<string>, d: Dialect, m: Meta)
    requires m in EmitAll(pieces, materials, d)
    ensures exists p :: p in pieces && m in Emit(p, materials, d)
  {
    hide Emit;
    if pieces != [] {
      if m in Emit(pieces[0], materials, d) {
        assert pieces[0] in pieces;
      } else {
        EntryHasPiece(pieces[1..], materials, d, m);
      }
    }
  }

  lemma {:induction false} PieceHasEntry(pieces: seq<Piece>, materials: seq<string>, d: Dialect, p: Piece, m: Meta)
    requires p in pieces && m in Emit(p, materials, d)
    ensures m in EmitAll(pieces, materials, d)
  {
    hide Emit;
    if pieces[0] != p {
      PieceHasEntry(pieces[1..], materials, d, p, m);
    }
  }

  /** The texts emitted are exactly the plain pieces that are not blank. */
  lemma TextsAreKept(pieces: seq<Piece>, materials: seq<string>, d: Dialect, text: string)
    ensures MetaText(text) in EmitAll(pieces, materials, d) <==> Plain(text) in pieces && !Blank(text, d)
  {
    if MetaText(text) in EmitAll(pieces, materials, d) {
      EntryHasPiece(pieces, materials, d, MetaText(text));
    }
    if Plain(text) in pieces && !Blank(text, d) {
      PieceHasEntry(pieces, materials, d, Plain(text), MetaText(text));
    }
  }

  lemma {:induction false} MentionsInRange(materials: seq<string>, i: nat, m: Meta)
    requires i <= |materials| && m in Mentions(materials, i)
    ensures m.MetaRef? ==> m.index < |materials| && m.kind == materials[m.index]
    ensures m.MetaText? ==> m.text == AND
    decreases |materials| - i
  {
    if i < |materials| && m in Mentions(materials, i + 1) {
      MentionsInRange(materials, i + 1, m);
    }
  }

  /** Every reference is to a material that exists, and carries that material's type. */
  lemma ReferencesInRange(prompt: string, materials: seq<string>, d: Dialect, m: Meta)
    requires m in MetaOf(prompt, materials, d) && m.MetaRef?
    ensures m.index < |materials| && m.kind == materials[m.index]
  {
    hide Pieces, EmitAll, Mentions, Blank;
    var pieces := Pieces(prompt, 0, d);
    if m in EmitAll(pieces, materials, d) {
      EntryHasPiece(pieces, materials, d, m);
    } else {
      assert m in Mentions(materials, 0);
      MentionsInRange(materials, 0, m);
    }
  }

  // The fallback

  lemma MentionsNext(materials: seq<string>, i: nat)
    requires i < |materials|
    ensures Mentions(materials, i) ==
      if i + 1 == |materials| then [MetaRef(materials[i], i)]
      else [MetaRef(materials[i], i), MetaText(AND)] + Mentions(materials, i + 1)
  {
    assert Mentions(materials, |materials|) == [];
  }

  lemma {:induction false} MentionsAre(materials: seq<string>, i: nat, k: nat)
    requires i <= k < |materials|
    ensures var list := Mentions(materials, i);
            && |list| == 2 * (|materials| - i) - 1
            && list[2 * (k - i)] == MetaRef(materials[k], k)
            && (k > i ==> list[2 * (k - i) - 1] == MetaText(AND))
    decreases |materials| - i
  {
    hide Mentions;
    MentionsNext(materials, i);
    if i + 1 < |materials| {
      var rest := Mentions(materials, i + 1);
      var to := if k > i then k else i + 1;
      MentionsAre(materials, i + 1, to);
      Behind(MetaRef(materials[i], i), MetaText(AND), rest, 2 * (to - i - 1));
    }
  }

  lemma Behind(a: Meta, b: Meta, rest: seq<Meta>, k: nat)
    requires k < |rest|
    ensures var list := [a, b] + rest;
            list[0] == a && list[1] == b && list[k + 2] == rest[k] && (k > 0 ==> list[k + 1] == rest[k - 1])
  {}

  /** When nothing of the prompt is left, the list has 2n + 1 entries and names each of the n materials
      once, in order. */
  lemma FallbackNamesAll(prompt: string, materials: seq<string>, d: Dialect, k: nat)
    requires k < |materials| && EmitAll(Pieces(prompt, 0, d), materials, d) == []
    ensures var list := MetaOf(prompt, materials, d);
            && |list| == 2 * |materials| + 1
            && list[0] == MetaText(USE) && list[2 * |materials|] == Closing(prompt, d)
            && list[2 * k + 1] == MetaRef(materials[k], k)
            && (k > 0 ==> list[2 * k] == MetaText(AND))
  {
    hide Mentions, Closing, Pieces, EmitAll;
    MentionsAre(materials, 0, k);
    Middle(MetaText(USE), Mentions(materials, 0), Closing(prompt, d), 2 * k);
  }

  lemma Middle(first: Meta, list: seq<Meta>, last: Meta, k: nat)
    requires k < |list|
    ensures var all := [first] + list + [last];
            |all| == |list| + 2 && all[0] == first && all[|list| + 1] == last && all[k + 1] == list[k]
            && (k > 0 ==> all[k] == list[k - 1])
  {}

  // Agreement

  lemma RustMatchIsMatch(s: string, i: nat)
    requires MatchAt(s, i, Rust)
    ensures MatchAt(s, i, TypeScript) && DigitsAt(s, i, TypeScript) == DigitsAt(s, i, Rust)
  {
    if IsImage(s, i + 1, Rust) {
      var five := s[i + 1..i + 6];
      assert Lower(five) == IMAGE;
    } else if IsImage(s, i + 1, TypeScript) {
      ImageIsLetters(s, i + 1, TypeScript);
    }
  }

  /** A placeholder in capitals, which only TypeScript sees. */
  predicate InCapitals(s: string, i: nat) {
    MatchAt(s, i, TypeScript) && !MatchAt(s, i, Rust)
  }

  ghost predicate NoCapitals(s: string) {
    forall i: nat :: !InCapitals(s, i)
  }

  lemma {:induction false} SamePieces(s: string, i: nat)
    requires i <= |s| && NoCapitals(s)
    ensures Pieces(s, i, Rust) == Pieces(s, i, TypeScript)
    decreases |s| - i
  {
    var at := NextMatch(s, i, Rust);
    SameNext(s, i);
    if at < |s| {
      RustMatchIsMatch(s, at);
      SamePieces(s, MatchEnd(s, at, Rust));
    }
    hide NextMatch, MatchAt, DigitsAt;
  }

  lemma SameNext(s: string, i: nat)
    requires i <= |s| && NoCapitals(s)
    ensures NextMatch(s, i, Rust) == NextMatch(s, i, TypeScript)
  {
    var a, b := NextMatch(s, i, Rust), NextMatch(s, i, TypeScript);
    assert !InCapitals(s, b);
    if a < |s| {
      RustMatchIsMatch(s, a);
    }
    hide MatchAt;
  }

  /** A placeholder in capitals stays inside a plain piece of the Rust cut. */
  lemma {:induction false} CapitalsStayPlain(s: string, i: nat, at: nat) returns (p: Piece)
    requires i <= at < |s|
    ensures InCapitals(s, at) ==> p in Pieces(s, i, Rust) && p.Plain? && !NoMatch(p.text, TypeScript)
    decreases |s| - i
  {
    hide MatchAt, DigitsAt, MatchEnd;
    p := Plain("");
    if InCapitals(s, at) {
      var next := NextMatch(s, i, Rust);
      if at < next {
        p := Plain(s[i..next]);
        CapitalsInStretch(s, i, next, at);
      } else {
        CapitalsBehind(s, next, at);
        p := CapitalsStayPlain(s, MatchEnd(s, next, Rust), at);
      }
    }
  }

  lemma CapitalsInStretch(s: string, i: nat, next: nat, at: nat)
    requires i <= at < next <= |s| && InCapitals(s, at) && (next < |s| ==> MatchAt(s, next, Rust))
    ensures !NoMatch(s[i..next], TypeScript)
  {
    MatchInStretch(s, i, next, at, TypeScript);
    assert MatchAt(s[i..next], at - i, TypeScript);
  }

  lemma CapitalsBehind(s: string, next: nat, at: nat)
    requires MatchAt(s, next, Rust) && next <= at && InCapitals(s, at)
    ensures at >= MatchEnd(s, next, Rust)
  {
    NoAtInside(s, next, Rust);
  }

  lemma CapitalsAreNotBlank(text: string)
    requires !NoMatch(text, TypeScript)
    ensures !Blank(text, Rust)
  {
    var i: nat :| MatchAt(text, i, TypeScript);
    assert text[i] == '@';
  }

  /** Texts the fallback never contains: short ones that are blank to someone or hold a placeholder. */
  lemma FallbackTexts(prompt: string, materials: seq<string>, d: Dialect, text: string)
    requires MetaText(text) in Fallback(prompt, materials, d)
    ensures text == USE || text == AND || text == MATERIAL_ONLY || text == MATERIAL + prompt
  {
    if MetaText(text) in Mentions(materials, 0) {
      MentionsInRange(materials, 0, MetaText(text));
    }
  }

  lemma OwnWords(d: Dialect)
    ensures !Blank(USE, d) && !Blank(AND, d) && !Blank(MATERIAL_ONLY, d)
    ensures Lacks(USE, '@') && Lacks(AND, '@') && Lacks(MATERIAL_ONLY, '@')
  {
    assert !IsBlankChar(USE[0], d) && !IsBlankChar(AND[0], d) && !IsBlankChar(MATERIAL_ONLY[0], d);
  }

  lemma OwnClosing(prompt: string, d: Dialect)
    ensures !Blank(MATERIAL + prompt, d)
  {
    assert (MATERIAL + prompt)[0] == MATERIAL[0];
    assert !IsBlankChar(MATERIAL[0], d);
  }

  /** No text in the list of a dialect is blank to it. */
  lemma TextsAreNotBlank(prompt: string, materials: seq<string>, d: Dialect, text: string)
    requires MetaText(text) in MetaOf(prompt, materials, d)
    ensures !Blank(text, d)
  {
    var items := EmitAll(Pieces(prompt, 0, d), materials, d);
    if items == [] {
      FallbackTexts(prompt, materials, d, text);
      OwnWords(d);
      OwnClosing(prompt, d);
    } else {
      TextsAreKept(Pieces(prompt, 0, d), materials, d, text);
    }
  }

  /** With a placeholder in capitals the lists differ. */
  lemma CapitalsDiffer(prompt: string, materials: seq<string>, at: nat)
    requires InCapitals(prompt, at)
    ensures MetaOf(prompt, materials, Rust) != MetaOf(prompt, materials, TypeScript)
  {
    assert at < |prompt|;
    var p := CapitalsStayPlain(prompt, 0, at);
    PlainPiecesArePlain(prompt, 0, Rust, p);
    CapitalsAreNotBlank(p.text);
    TextsAreKept(Pieces(prompt, 0, Rust), materials, Rust, p.text);
    assert MetaText(p.text) in MetaOf(prompt, materials, Rust);
    if MetaText(p.text) in MetaOf(prompt, materials, TypeScript) {
      CapitalsNotInList(prompt, materials, p.text);
    }
  }

  lemma CapitalsNotInList(prompt: string, materials: seq<string>, text: string)
    requires !NoMatch(text, TypeScript) && |text| <= |prompt|
    ensures MetaText(text) !in MetaOf(prompt, materials, TypeScript)
  {
    var pieces := Pieces(prompt, 0, TypeScript);
    if EmitAll(pieces, materials, TypeScript) == [] {
      MatchHasAt(text);
      OwnWords(TypeScript);
      assert |MATERIAL + prompt| > |prompt|;
      if MetaText(text) in Fallback(prompt, materials, TypeScript) {
        FallbackTexts(prompt, materials, TypeScript, text);
      }
    } else {
      TextsAreKept(pieces, materials, TypeScript, text);
      if Plain(text) in pieces {
        PlainPiecesArePlain(prompt, 0, TypeScript, Plain(text));
      }
    }
  }

  lemma MatchHasAt(text: string)
    requires !NoMatch(text, TypeScript)
    ensures !Lacks(text, '@')
  {
    var i: nat :| MatchAt(text, i, TypeScript);
    assert text[i] == '@';
  }

  /** A plain piece is blank to both or to neither; a number is from 1 to the largest usize, unless there
      is nothing to refer to. */
  predicate PieceAgrees(p: Piece, count: nat) {
    match p
    case Plain(text) => Blank(text, Rust) <==> Blank(text, TypeScript)
    case Ref(_, number) => count == 0 || 1 <= number <= USIZE_MAX
  }

  lemma {:induction false} AgreeingPiecesEmitTheSame(pieces: seq<Piece>, materials: seq<string>)
    requires forall p :: p in pieces ==> PieceAgrees(p, |materials|)
    ensures EmitAll(pieces, materials, Rust) == EmitAll(pieces, materials, TypeScript)
  {
    hide Blank;
    if pieces != [] {
      assert PieceAgrees(pieces[0], |materials|);
      AgreeingPiecesEmitTheSame(pieces[1..], materials);
    }
  }

  /** A vector is no longer than the largest usize. */
  lemma ExtraReference(p: Piece, materials: seq<string>)
    requires p.Ref? && |materials| <= USIZE_MAX
    ensures |Emit(p, materials, Rust)|
         == |Emit(p, materials, TypeScript)| + if PieceAgrees(p, |materials|) then 0 else 1
  {}

  /** Where the plain pieces agree, Rust emits at least what TypeScript does, and more where a number is
      0 or too big. */
  lemma {:induction false} RustEmitsMore(pieces: seq<Piece>, materials: seq<string>)
    requires |materials| <= USIZE_MAX
    requires forall p :: p in pieces && p.Plain? ==> PieceAgrees(p, |materials|)
    ensures |EmitAll(pieces, materials, Rust)| >= |EmitAll(pieces, materials, TypeScript)|
    ensures (exists p :: p in pieces && !PieceAgrees(p, |materials|)) ==>
      |EmitAll(pieces, materials, Rust)| > |EmitAll(pieces, materials, TypeScript)|
  {
    hide Blank;
    if pieces != [] {
      var first, rest := pieces[0], pieces[1..];
      assert first in pieces;
      assert forall p :: p in pieces <==> p == first || p in rest;
      RustEmitsMore(rest, materials);
      if first.Ref? {
        ExtraReference(first, materials);
      } else {
        assert PieceAgrees(first, |materials|);
      }
      hide Emit, PieceAgrees;
    }
  }

  /** Some text of the prompt is left in the list. */
  ghost predicate HasText(prompt: string) {
    exists p :: p in Pieces(prompt, 0, Rust) && p.Plain? && !Blank(p.text, Rust)
  }

  /** What a caller can check of a prompt before asking either service. */
  ghost predicate Agreeable(prompt: string, count: nat) {
    && NoCapitals(prompt)
    && (forall p :: p in Pieces(prompt, 0, Rust) ==> PieceAgrees(p, count))
    && (count > 0 || HasText(prompt))
  }

  lemma {:induction false} BlankPrompt(pieces: seq<Piece>, d: Dialect)
    ensures Blank(Joined(pieces), d) <==> forall p :: p in pieces ==> Blank(p.text, d)
  {
    if pieces != [] {
      var first, rest := pieces[0], pieces[1..];
      assert first in pieces;
      assert forall p :: p in pieces <==> p == first || p in rest;
      BlankPrompt(rest, d);
      BlankJoin(first.text, Joined(rest), d);
      hide Blank;
    }
  }

  lemma BlankJoin(a: string, b: string, d: Dialect)
    ensures Blank(a + b, d) <==> Blank(a, d) && Blank(b, d)
  {
    if Blank(a + b, d) {
      assert forall i :: 0 <= i < |a| ==> (a + b)[i] == a[i];
      assert forall i :: 0 <= i < |b| ==> (a + b)[|a| + i] == b[i];
    }
  }

  lemma {:induction false} RefPiecesAreNotBlank(s: string, i: nat, p: Piece, d: Dialect)
    requires i <= |s| && p in Pieces(s, i, Rust) && p.Ref?
    ensures !Blank(p.text, d)
    decreases |s| - i
  {
    var at := NextMatch(s, i, Rust);
    if at < |s| {
      if p == RefPiece(s, at, Rust) {
        assert p.text[0] == '@';
      } else {
        RefPiecesAreNotBlank(s, MatchEnd(s, at, Rust), p, d);
      }
    }
  }

  /** With pieces that agree, the whole prompt is blank to both or to neither. */
  lemma PromptsAgree(prompt: string, count: nat)
    requires forall p :: p in Pieces(prompt, 0, Rust) ==> PieceAgrees(p, count)
    ensures Blank(prompt, Rust) <==> Blank(prompt, TypeScript)
  {
    var pieces := Pieces(prompt, 0, Rust);
    PiecesMakeThePrompt(prompt, 0, Rust);
    assert prompt[0..] == prompt;
    BlankPrompt(pieces, Rust);
    BlankPrompt(pieces, TypeScript);
    forall p | p in pieces
      ensures Blank(p.text, Rust) <==> Blank(p.text, TypeScript)
    {
      if p.Ref? {
        RefPiecesAreNotBlank(prompt, 0, p, Rust);
        RefPiecesAreNotBlank(prompt, 0, p, TypeScript);
      } else {
        assert PieceAgrees(p, count);
      }
    }
    hide Blank;
  }

  /** Enough: both services build the same list. */
  lemma AgreeableAgrees(prompt: string, materials: seq<string>)
    requires Agreeable(prompt, |materials|)
    ensures MetaOf(prompt, materials, Rust) == MetaOf(prompt, materials, TypeScript)
  {
    var pieces := Pieces(prompt, 0, Rust);
    SamePieces(prompt, 0);
    AgreeingPiecesEmitTheSame(pieces, materials);
    if EmitAll(pieces, materials, Rust) == [] {
      if materials == [] {
        var p :| p in pieces && p.Plain? && !Blank(p.text, Rust);
        TextsAreKept(pieces, materials, Rust, p.text);
        assert false;
      }
      PromptsAgree(prompt, |materials|);
    }
    hide Pieces, EmitAll, Blank;
  }

  /** A plain piece that is blank to one only makes the lists differ. */
  lemma BlankToOneDiffers(prompt: string, materials: seq<string>, p: Piece)
    requires NoCapitals(prompt) && p in Pieces(prompt, 0, Rust) && p.Plain? && !PieceAgrees(p, |materials|)
    ensures MetaOf(prompt, materials, Rust) != MetaOf(prompt, materials, TypeScript)
  {
    SamePieces(prompt, 0);
    var keeps := if Blank(p.text, Rust) then TypeScript else Rust;
    var drops := if Blank(p.text, Rust) then Rust else TypeScript;
    TextsAreKept(Pieces(prompt, 0, keeps), materials, keeps, p.text);
    assert MetaText(p.text) in MetaOf(prompt, materials, keeps);
    if MetaText(p.text) in MetaOf(prompt, materials, drops) {
      TextsAreNotBlank(prompt, materials, drops, p.text);
    }
  }

  /** A number that only Rust takes makes the lists differ. */
  lemma NumberDiffers(prompt: string, materials: seq<string>, q: Piece)
    requires |materials| <= USIZE_MAX && NoCapitals(prompt)
    requires forall p :: p in Pieces(prompt, 0, Rust) && p.Plain? ==> PieceAgrees(p, |materials|)
    requires q in Pieces(prompt, 0, Rust) && !PieceAgrees(q, |materials|)
    ensures MetaOf(prompt, materials, Rust) != MetaOf(prompt, materials, TypeScript)
  {
    var pieces := Pieces(prompt, 0, Rust);
    SamePieces(prompt, 0);
    RustEmitsMore(pieces, materials);
    var mine, theirs := EmitAll(pieces, materials, Rust), EmitAll(pieces, materials, TypeScript);
    if theirs == [] {
      assert MetaText(USE) in MetaOf(prompt, materials, TypeScript);
      TextsAreKept(pieces, materials, Rust, USE);
      TextsAreKept(pieces, materials, TypeScript, USE);
      OwnWords(TypeScript);
    }
  }

  /** Without materials and without text the two fall back differently. */
  lemma NothingDiffers(prompt: string, materials: seq<string>)
    requires NoCapitals(prompt) && materials == [] && !HasText(prompt)
    requires forall p :: p in Pieces(prompt, 0, Rust) ==> PieceAgrees(p, 0)
    ensures MetaOf(prompt, materials, Rust) != MetaOf(prompt, materials, TypeScript)
  {
    var pieces := Pieces(prompt, 0, Rust);
    SamePieces(prompt, 0);
    AgreeingPiecesEmitTheSame(pieces, materials);
    var items := EmitAll(pieces, materials, Rust);
    if items != [] {
      EntryHasPiece(pieces, materials, Rust, items[0]);
      assert false;
    }
    assert Mentions(materials, 0) == [];
  }

  /** The two services build the same list exactly when the prompt has no placeholder in capitals, no
      number that is 0 or above the largest usize, no text that only one of them takes for blank, and
      there is a material or some text. */
  lemma Agreement(prompt: string, materials: seq<string>)
    requires |materials| <= USIZE_MAX
    ensures MetaOf(prompt, materials, Rust) == MetaOf(prompt, materials, TypeScript)
       <==> Agreeable(prompt, |materials|)
  {
    hide MetaOf, PieceAgrees, Pieces;
    if !NoCapitals(prompt) {
      var at: nat :| InCapitals(prompt, at);
      CapitalsDiffer(prompt, materials, at);
    } else if exists p :: p in Pieces(prompt, 0, Rust) && !PieceAgrees(p, |materials|) {
      if exists p :: p in Pieces(prompt, 0, Rust) && p.Plain? && !PieceAgrees(p, |materials|) {
        var p :| p in Pieces(prompt, 0, Rust) && p.Plain? && !PieceAgrees(p, |materials|);
        BlankToOneDiffers(prompt, materials, p);
      } else {
        var q :| q in Pieces(prompt, 0, Rust) && !PieceAgrees(q, |materials|);
        NumberDiffers(prompt, materials, q);
      }
    } else if materials == [] && !HasText(prompt) {
      NothingDiffers(prompt, materials);
    } else {
      AgreeableAgrees(prompt, materials);
    }
  }

  /** `@0`: the first material to Rust, nothing to TypeScript, which falls back to naming them all. */
  lemma ZeroDiffers()
    ensures MetaOf("@0", ["image"], Rust) == [MetaRef("image", 0)]
    ensures MetaOf("@0", ["image"], TypeScript) == [MetaText(USE), MetaRef("image", 0), MetaText(MATERIAL + "@0")]
  {
    hide Pieces, EmitAll, Mentions, Closing;
    ZeroPieces(Rust);
    ZeroPieces(TypeScript);
    EmitOne(Ref("@0", 0), ["image"], Rust);
    EmitOne(Ref("@0", 0), ["image"], TypeScript);
    MentionsNext(["image"], 0);
    ZeroCloses();
  }

  lemma ZeroCloses()
    ensures Closing("@0", TypeScript) == MetaText(MATERIAL + "@0")
  {
    assert !IsBlankChar("@0"[0], TypeScript);
  }

  lemma ZeroPieces(d: Dialect)
    ensures Pieces("@0", 0, d) == [Ref("@0", 0)]
  {
    var s := "@0";
    assert DigitsAt(s, 0, d) == 1 && MatchAt(s, 0, d);
    assert DigitsEnd(s, 2) == 2 && MatchEnd(s, 0, d) == 2;
    assert s[1..2] == "0" && "0"[..0] == "";
    assert Number("") == 0 && Number("0") == 0;
    assert s[0..2] == s;
    assert RefPiece(s, 0, d) == Ref("@0", 0);
    assert NextMatch(s, 0, d) == 0;
    assert Pieces(s, 2, d) == [];
    hide RefPiece, MatchEnd, DigitsAt, Number;
  }
}
