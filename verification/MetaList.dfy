/** Cutting a prompt at its material placeholders (`@1`, `@图1`, `@image1`), as the gateway and the older
    TypeScript service each do it. */
module MetaList {
  import opened Text
  import opened Blanks

  /** An entry of the list; `index` refers to the uploaded materials. */
  datatype Meta = MetaText(text: string) | MetaRef(kind: string, index: nat)

  /** A stretch of the prompt: plain text, or a placeholder and its number. */
  datatype Piece = Plain(text: string) | Ref(text: string, number: nat)

  const USIZE_MAX := 0xFFFF_FFFF_FFFF_FFFF
  const PICTURE := '图'
  const IMAGE := "image"
  const USE := "使用"
  const AND := "和"
  const MATERIAL := "素材，"
  const MATERIAL_ONLY := "素材生成视频"

  function Number(digits: string): nat {
    if digits == "" || !IsDigit(digits[|digits| - 1]) then 0
    else 10 * Number(digits[..|digits| - 1]) + (digits[|digits| - 1] as int - '0' as int)
  }

  // Placeholders

  /** The TypeScript expression ignores case. */
  predicate IsImage(s: string, i: nat, d: Dialect): (found: bool)
    ensures found ==> i + 5 <= |s|
  {
    i + 5 <= |s| && (if d.Rust? then s[i..i + 5] else Lower(s[i..i + 5])) == IMAGE
  }

  /** Where the digits of a placeholder at `i` have to start. */
  function DigitsAt(s: string, i: nat, d: Dialect): (at: nat)
    ensures at > i
  {
    if i + 1 < |s| && s[i + 1] == PICTURE then i + 2 else if IsImage(s, i + 1, d) then i + 6 else i + 1
  }

  predicate MatchAt(s: string, i: nat, d: Dialect) {
    i < |s| && s[i] == '@' && DigitsAt(s, i, d) < |s| && IsDigit(s[DigitsAt(s, i, d)])
  }

  function DigitsEnd(s: string, i: nat): (end: nat)
    requires i <= |s|
    ensures i <= end <= |s| && forall k :: i <= k < end ==> IsDigit(s[k])
    ensures end < |s| ==> !IsDigit(s[end])
    decreases |s| - i
  {
    if i < |s| && IsDigit(s[i]) then DigitsEnd(s, i + 1) else i
  }

  /** The first placeholder from `i` on, or the end of the prompt. */
  function NextMatch(s: string, i: nat, d: Dialect): (at: nat)
    requires i <= |s|
    ensures i <= at <= |s| && (at < |s| ==> MatchAt(s, at, d)) && forall k :: i <= k < at ==> !MatchAt(s, k, d)
    decreases |s| - i
  {
    if i == |s| || MatchAt(s, i, d) then i else NextMatch(s, i + 1, d)
  }

  function MatchEnd(s: string, at: nat, d: Dialect): (end: nat)
    requires MatchAt(s, at, d)
    ensures DigitsAt(s, at, d) < end <= |s|
  {
    DigitsEnd(s, DigitsAt(s, at, d))
  }

  function PlainPiece(s: string, from: nat, to: nat): seq<Piece>
    requires from <= to <= |s|
  {
    if from < to then [Plain(s[from..to])] else []
  }

  function RefPiece(s: string, at: nat, d: Dialect): Piece
    requires MatchAt(s, at, d)
  {
    Ref(s[at..MatchEnd(s, at, d)], Number(s[DigitsAt(s, at, d)..MatchEnd(s, at, d)]))
  }

  /** The prompt from `i` on, cut at its placeholders. */
  function Pieces(s: string, i: nat, d: Dialect): seq<Piece>
    requires i <= |s|
    decreases |s| - i
  {
    var at := NextMatch(s, i, d);
    if at == |s| then PlainPiece(s, i, at)
    else PlainPiece(s, i, at) + ([RefPiece(s, at, d)] + Pieces(s, MatchEnd(s, at, d), d))
  }

  // What becomes of a piece

  /** A number too big for usize counts as 1, and 0 means the first material too; TypeScript takes
      neither. */
  predicate Refers(number: nat, count: nat, d: Dialect) {
    if d.Rust? then RustIndex(number) < count else 1 <= number <= count
  }

  function RustIndex(number: nat): nat {
    var idx := if number > USIZE_MAX then 1 else number;
    if idx == 0 then 0 else idx - 1
  }

  function IndexOf(number: nat, d: Dialect): nat {
    if d.Rust? || number == 0 then RustIndex(number) else number - 1
  }

  function Emit(p: Piece, materials: seq<string>, d: Dialect): seq<Meta> {
    match p
    case Plain(text) => if Blank(text, d) then [] else [MetaText(text)]
    case Ref(_, number) =>
      if Refers(number, |materials|, d) then [MetaRef(materials[IndexOf(number, d)], IndexOf(number, d))] else []
  }

  function EmitAll(pieces: seq<Piece>, materials: seq<string>, d: Dialect): seq<Meta> {
    if pieces == [] then [] else Emit(pieces[0], materials, d) + EmitAll(pieces[1..], materials, d)
  }

  /** Each material once, with `AND` between them. */
  function Mentions(materials: seq<string>, i: nat): seq<Meta>
    requires i <= |materials|
    decreases |materials| - i
  {
    if i == |materials| then []
    else [MetaRef(materials[i], i)] + (if i + 1 < |materials| then [MetaText(AND)] else []) + Mentions(materials, i + 1)
  }

  function Closing(prompt: string, d: Dialect): Meta {
    MetaText(if Blank(prompt, d) then MATERIAL_ONLY else MATERIAL + prompt)
  }

  function Fallback(prompt: string, materials: seq<string>, d: Dialect): seq<Meta> {
    (if d.Rust? || materials != [] then [MetaText(USE)] else []) + Mentions(materials, 0) + [Closing(prompt, d)]
  }

  function MetaOf(prompt: string, materials: seq<string>, d: Dialect): seq<Meta> {
    var items := EmitAll(Pieces(prompt, 0, d), materials, d);
    if items == [] then Fallback(prompt, materials, d) else items
  }

  lemma {:induction false} EmitAllJoins(a: seq<Piece>, b: seq<Piece>, materials: seq<string>, d: Dialect)
    ensures EmitAll(a + b, materials, d) == EmitAll(a, materials, d) + EmitAll(b, materials, d)
  {
    hide Emit;
    if a == [] {
      assert a + b == b;
    } else {
      assert (a + b)[1..] == a[1..] + b;
      EmitAllJoins(a[1..], b, materials, d);
    }
  }

  lemma EmitOne(p: Piece, materials: seq<string>, d: Dialect)
    ensures EmitAll([p], materials, d) == Emit(p, materials, d)
  {
    hide Emit;
    assert [p][1..] == [];
  }

  // The loops

  /** What the loop emits in one round: the text before a placeholder, then the placeholder. */
  lemma RoundEmits(s: string, i: nat, at: nat, materials: seq<string>, d: Dialect)
    requires i <= at < |s| && at == NextMatch(s, i, d)
    ensures EmitAll(Pieces(s, i, d), materials, d)
         == EmitAll(PlainPiece(s, i, at), materials, d) + Emit(RefPiece(s, at, d), materials, d)
            + EmitAll(Pieces(s, MatchEnd(s, at, d), d), materials, d)
  {
    hide Emit, EmitAll;
    var ref, rest := RefPiece(s, at, d), Pieces(s, MatchEnd(s, at, d), d);
    EmitAllJoins(PlainPiece(s, i, at), [ref] + rest, materials, d);
    EmitAllJoins([ref], rest, materials, d);
    EmitOne(ref, materials, d);
  }

  /** `list` is what the pieces before `i` emit. */
  ghost predicate Done(list: seq<Meta>, s: string, i: nat, materials: seq<string>, d: Dialect) {
    i <= |s| && list + EmitAll(Pieces(s, i, d), materials, d) == EmitAll(Pieces(s, 0, d), materials, d)
  }

  lemma NothingDone(s: string, materials: seq<string>, d: Dialect)
    ensures Done([], s, 0, materials, d)
  {
    hide EmitAll, Pieces;
  }

  lemma RoundDone(list: seq<Meta>, s: string, i: nat, at: nat, materials: seq<string>, d: Dialect)
    requires Done(list, s, i, materials, d) && i <= at < |s| && at == NextMatch(s, i, d)
    ensures Done(list + EmitAll(PlainPiece(s, i, at), materials, d) + Emit(RefPiece(s, at, d), materials, d),
                 s, MatchEnd(s, at, d), materials, d)
  {
    hide Emit, EmitAll, Pieces, RefPiece, MatchEnd, NextMatch, PlainPiece;
    RoundEmits(s, i, at, materials, d);
    JoinFour(list, EmitAll(PlainPiece(s, i, at), materials, d), Emit(RefPiece(s, at, d), materials, d),
             EmitAll(Pieces(s, MatchEnd(s, at, d), d), materials, d));
  }

  lemma JoinFour(a: seq<Meta>, b: seq<Meta>, c: seq<Meta>, e: seq<Meta>)
    ensures a + (b + c + e) == a + b + c + e
  {}

  lemma LastDone(list: seq<Meta>, s: string, i: nat, materials: seq<string>, d: Dialect)
    requires Done(list, s, i, materials, d) && NextMatch(s, i, d) == |s|
    ensures list + EmitAll(PlainPiece(s, i, |s|), materials, d) == EmitAll(Pieces(s, 0, d), materials, d)
  {
    assert Pieces(s, i, d) == PlainPiece(s, i, |s|);
    hide EmitAll, PlainPiece;
  }

  method AppendText(list: seq<Meta>, s: string, from: nat, to: nat, materials: seq<string>, d: Dialect)
    returns (list': seq<Meta>)
    requires from <= to <= |s|
    ensures list' == list + EmitAll(PlainPiece(s, from, to), materials, d)
  {
    list' := list;
    if from < to {
      var text := s[from..to];
      EmitOne(Plain(text), materials, d);
      if !Blank(text, d) {
        list' := list' + [MetaText(text)];
      }
    }
  }

  method AppendMentions(list: seq<Meta>, materials: seq<string>) returns (list': seq<Meta>)
    ensures list' == list + Mentions(materials, 0)
  {
    list' := list;
    for i := 0 to |materials|
      invariant list' + Mentions(materials, i) == list + Mentions(materials, 0)
    {
      list' := list' + [MetaRef(materials[i], i)];
      if i + 1 < |materials| {
        list' := list' + [MetaText(AND)];
      }
    }
  }

  method BuildMetaList(prompt: string, materials: seq<string>) returns (list: seq<Meta>)
    ensures list == MetaOf(prompt, materials, Rust)
  {
    hide Done, EmitAll, Pieces, RefPiece, PlainPiece, Fallback, Blank;
    list := [];
    var lastEnd := 0;
    var at := NextMatch(prompt, 0, Rust);
    NothingDone(prompt, materials, Rust);
    while at < |prompt|
      invariant lastEnd <= at <= |prompt| && at == NextMatch(prompt, lastEnd, Rust)
      invariant Done(list, prompt, lastEnd, materials, Rust)
      decreases |prompt| - lastEnd
    {
      RoundDone(list, prompt, lastEnd, at, materials, Rust);
      list := AppendText(list, prompt, lastEnd, at, materials, Rust);
      var ref := RefPiece(prompt, at, Rust);
      assert ref.Ref? by { RefIsRef(prompt, at, Rust); }
      ghost var before := list;
      var materialIdx := RustIndex(ref.number);
      if materialIdx < |materials| {
        list := list + [MetaRef(materials[materialIdx], materialIdx)];
      }
      assert list == before + Emit(ref, materials, Rust);
      lastEnd := MatchEnd(prompt, at, Rust);
      at := NextMatch(prompt, lastEnd, Rust);
    }
    LastDone(list, prompt, lastEnd, materials, Rust);
    list := AppendText(list, prompt, lastEnd, |prompt|, materials, Rust);
    if list == [] {
      list := RustFallback(prompt, materials);
    }
  }

  lemma RefIsRef(s: string, at: nat, d: Dialect)
    requires MatchAt(s, at, d)
    ensures RefPiece(s, at, d).Ref?
  {}

  method RustFallback(prompt: string, materials: seq<string>) returns (list: seq<Meta>)
    ensures list == Fallback(prompt, materials, Rust)
  {
    list := [MetaText(USE)];
    list := AppendMentions(list, materials);
    if !Blank(prompt, Rust) {
      list := list + [MetaText(MATERIAL + prompt)];
    } else {
      list := list + [MetaText(MATERIAL_ONLY)];
    }
  }

  method BuildMetaListFromPrompt(prompt: string, materials: seq<string>) returns (list: seq<Meta>)
    ensures list == MetaOf(prompt, materials, TypeScript)
  {
    hide Done, EmitAll, Pieces, RefPiece, PlainPiece, Fallback, Blank;
    list := [];
    var lastIndex := 0;
    var at := NextMatch(prompt, 0, TypeScript);
    NothingDone(prompt, materials, TypeScript);
    while at < |prompt|
      invariant lastIndex <= at <= |prompt| && at == NextMatch(prompt, lastIndex, TypeScript)
      invariant Done(list, prompt, lastIndex, materials, TypeScript)
      decreases |prompt| - lastIndex
    {
      RoundDone(list, prompt, lastIndex, at, materials, TypeScript);
      list := AppendText(list, prompt, lastIndex, at, materials, TypeScript);
      var ref := RefPiece(prompt, at, TypeScript);
      assert ref.Ref? by { RefIsRef(prompt, at, TypeScript); }
      ghost var before := list;
      var materialIndex: int := ref.number - 1;
      if 0 <= materialIndex < |materials| {
        list := list + [MetaRef(materials[materialIndex], materialIndex)];
      }
      assert list == before + Emit(ref, materials, TypeScript);
      lastIndex := MatchEnd(prompt, at, TypeScript);
      at := NextMatch(prompt, lastIndex, TypeScript);
    }
    LastDone(list, prompt, lastIndex, materials, TypeScript);
    list := AppendText(list, prompt, lastIndex, |prompt|, materials, TypeScript);
    if list == [] {
      list := TypeScriptFallback(prompt, materials);
    }
  }

  method TypeScriptFallback(prompt: string, materials: seq<string>) returns (list: seq<Meta>)
    ensures list == Fallback(prompt, materials, TypeScript)
  {
    list := [];
    if materials != [] {
      list := [MetaText(USE)];
    }
    list := AppendMentions(list, materials);
    if !Blank(prompt, TypeScript) {
      list := list + [MetaText(MATERIAL + prompt)];
    } else {
      list := list + [MetaText(MATERIAL_ONLY)];
    }
  }
}
