/** What the list says: which material each placeholder means, and that nothing else moves. */
module MetaListReadings {
  import opened Text
  import opened Blanks
  import opened MetaList
  import opened MetaListAgreement

  // References and texts, in order

  function Indices(list: seq<Meta>): seq<nat> {
    if list == [] then []
    else (if list[0].MetaRef? then [list[0].index] else []) + Indices(list[1..])
  }

  function Texts(list: seq<Meta>): seq<string> {
    if list == [] then []
    else (if list[0].MetaText? then [list[0].text] else []) + Texts(list[1..])
  }

  /** The material a number stands for: number n for the n-th of `count`. To Rust 0 and what does not fit a
      usize stand for the first one. */
  function NamedBy(number: nat, count: nat, d: Dialect): seq<nat> {
    if d.Rust? && (number == 0 || number > USIZE_MAX) then (if count == 0 then [] else [0])
    else if 1 <= number <= count then [number - 1]
    else []
  }

  function Named(pieces: seq<Piece>, count: nat, d: Dialect): seq<nat> {
    if pieces == [] then []
    else (if pieces[0].Ref? then NamedBy(pieces[0].number, count, d) else []) + Named(pieces[1..], count, d)
  }

  function Spoken(pieces: seq<Piece>, d: Dialect): seq<string> {
    if pieces == [] then []
    else (if pieces[0].Plain? && !Blank(pieces[0].text, d) then [pieces[0].text] else []) + Spoken(pieces[1..], d)
  }

  lemma {:induction false} IndicesJoin(a: seq<Meta>, b: seq<Meta>)
    ensures Indices(a + b) == Indices(a) + Indices(b) && Texts(a + b) == Texts(a) + Texts(b)
  {
    if a == [] {
      assert a + b == b;
    } else {
      assert (a + b)[1..] == a[1..] + b;
      IndicesJoin(a[1..], b);
    }
  }

  lemma IndicesOfOne(p: Piece, materials: seq<string>, d: Dialect)
    ensures Indices(Emit(p, materials, d)) == if p.Ref? then NamedBy(p.number, |materials|, d) else []
    ensures Texts(Emit(p, materials, d)) == if p.Plain? && !Blank(p.text, d) then [p.text] else []
  {
    hide Blank;
    var list := Emit(p, materials, d);
    assert list != [] ==> list == [list[0]] && list[1..] == [];
  }

  lemma {:induction false} IndicesOfPieces(pieces: seq<Piece>, materials: seq<string>, d: Dialect)
    ensures Indices(EmitAll(pieces, materials, d)) == Named(pieces, |materials|, d)
    ensures Texts(EmitAll(pieces, materials, d)) == Spoken(pieces, d)
  {
    hide Emit, Blank, NamedBy;
    if pieces != [] {
      IndicesOfOne(pieces[0], materials, d);
      IndicesOfPieces(pieces[1..], materials, d);
      IndicesJoin(Emit(pieces[0], materials, d), EmitAll(pieces[1..], materials, d));
    }
  }

  /** The prompt leaves something if it names a material or holds a text that is not blank. Then the references
      of the list are, in order, to the materials its placeholders number, each with that material's type, and
      its texts are, in order, the texts of the prompt that are not blank. */
  lemma ReferencesAreTheNumbers(prompt: string, materials: seq<string>, d: Dialect)
    requires Named(Pieces(prompt, 0, d), |materials|, d) != [] || Spoken(Pieces(prompt, 0, d), d) != []
    ensures var list := MetaOf(prompt, materials, d);
            && Indices(list) == Named(Pieces(prompt, 0, d), |materials|, d)
            && Texts(list) == Spoken(Pieces(prompt, 0, d), d)
            && forall m :: m in list && m.MetaRef? ==> m.index < |materials| && m.kind == materials[m.index]
  {
    hide Pieces, EmitAll, Named, Spoken, Fallback;
    IndicesOfPieces(Pieces(prompt, 0, d), materials, d);
    assert Indices([]) == [] && Texts([]) == [];
    forall m | m in MetaOf(prompt, materials, d) && m.MetaRef?
      ensures m.index < |materials| && m.kind == materials[m.index]
    {
      ReferencesInRange(prompt, materials, d, m);
    }
  }

  /** If nothing is left, the list is the one that names every material. */
  lemma NothingLeft(prompt: string, materials: seq<string>, d: Dialect)
    requires Named(Pieces(prompt, 0, d), |materials|, d) == [] && Spoken(Pieces(prompt, 0, d), d) == []
    ensures EmitAll(Pieces(prompt, 0, d), materials, d) == []
  {
    hide Pieces, EmitAll, Named, Spoken;
    IndicesOfPieces(Pieces(prompt, 0, d), materials, d);
    var list := EmitAll(Pieces(prompt, 0, d), materials, d);
    assert list != [] ==> Indices(list) != [] || Texts(list) != [];
  }

  // The list read back

  /** Every reference written as `@` and its number, which counts from 1. */
  function Rendered(list: seq<Meta>): string {
    if list == [] then ""
    else (match list[0] case MetaText(text) => text case MetaRef(_, index) => "@" + Digits(index + 1))
         + Rendered(list[1..])
  }

  /** A text that is not blank, or `@n` for one of the materials. */
  ghost predicate Canonical(p: Piece, count: nat, d: Dialect) {
    match p
    case Plain(text) => !Blank(text, d)
    case Ref(text, number) => 1 <= number <= count && number <= USIZE_MAX && text == "@" + Digits(number)
  }

  lemma {:induction false} RenderedPieces(pieces: seq<Piece>, materials: seq<string>, d: Dialect)
    requires forall p :: p in pieces ==> Canonical(p, |materials|, d)
    ensures Rendered(EmitAll(pieces, materials, d)) == Joined(pieces)
    ensures |EmitAll(pieces, materials, d)| == |pieces|
  {
    if pieces != [] {
      var p, rest := pieces[0], pieces[1..];
      assert p in pieces;
      RenderedPieces(rest, materials, d);
      var one := Emit(p, materials, d);
      assert |one| == 1;
      assert one[0] == if p.Plain? then MetaText(p.text) else MetaRef(materials[p.number - 1], p.number - 1);
      hide Emit, Blank;
      assert (one + EmitAll(rest, materials, d))[1..] == EmitAll(rest, materials, d);
    }
  }

  /** Round trip: a prompt whose placeholders are all written `@n` for a material there is, and whose texts in
      between are not blank, can be read off its list, text by text and reference by reference. */
  lemma PromptReadsBack(prompt: string, materials: seq<string>, d: Dialect)
    requires prompt != "" && forall p :: p in Pieces(prompt, 0, d) ==> Canonical(p, |materials|, d)
    ensures Rendered(MetaOf(prompt, materials, d)) == prompt
  {
    hide Pieces, EmitAll, Canonical, Rendered, Joined;
    var pieces := Pieces(prompt, 0, d);
    PiecesMakeThePrompt(prompt, 0, d);
    RenderedPieces(pieces, materials, d);
    assert prompt[0..] == prompt;
    if pieces == [] {
      NothingJoined();
    }
  }

  lemma NothingJoined()
    ensures Joined([]) == ""
  {}

  // One placeholder

  /** What may stand before the number: `@`, `@图`, or `@image`, to TypeScript in any case. */
  ghost predicate Marker(marker: string, d: Dialect) {
    || marker == "@"
    || marker == "@图"
    || (|marker| == 6 && marker[0] == '@' && (if d.Rust? then marker[1..] else Lower(marker[1..])) == "image")
  }

  lemma {:induction false} DigitsAreDigits(n: nat, k: nat)
    requires k < |Digits(n)|
    ensures IsDigit(Digits(n)[k])
  {
    if n >= 10 && k < |Digits(n)| - 1 {
      LastDigit(n);
      DigitsAreDigits(n / 10, k);
    }
  }

  lemma MarkerEnds(marker: string, n: nat, d: Dialect)
    requires Marker(marker, d)
    ensures DigitsAt(marker + Digits(n), 0, d) == |marker| && (marker + Digits(n))[0] == '@'
  {
    var s := marker + Digits(n);
    DigitsAreDigits(n, 0);
    hide Digits;
    assert s[|marker|] == Digits(n)[0];
    if |marker| == 6 {
      var word := marker[1..];
      assert s[1..6] == word;
      assert (if d.Rust? then word[0] else LowerChar(word[0])) == 'i';
      assert s[1] == word[0];
    } else if marker == "@" && 6 <= |s| {
      assert s[1..6][0] == s[1];
      assert IMAGE[0] == 'i';
    }
  }

  lemma OnePiece(marker: string, n: nat, d: Dialect)
    requires Marker(marker, d)
    ensures Pieces(marker + Digits(n), 0, d) == [Ref(marker + Digits(n), n)]
  {
    var s := marker + Digits(n);
    MarkerEnds(marker, n, d);
    forall k | |marker| <= k < |s|
      ensures IsDigit(s[k])
    {
      DigitsAreDigits(n, k - |marker|);
    }
    AllDigits(s, |marker|);
    NumberOfDigits(n);
    hide DigitsAt, Digits, Number, Marker, IsDigit;
    assert MatchAt(s, 0, d) && MatchEnd(s, 0, d) == |s|;
    assert s[|marker|..|s|] == Digits(n) && s[0..|s|] == s;
    assert RefPiece(s, 0, d) == Ref(s, n);
    hide RefPiece;
    assert NextMatch(s, 0, d) == 0;
    assert Pieces(s, |s|, d) == [];
  }

  /** A prompt that is just the placeholder of the n-th material, however marked, gives that material. */
  lemma PlaceholderMeans(marker: string, n: nat, materials: seq<string>, d: Dialect)
    requires Marker(marker, d) && 1 <= n <= |materials| && n <= USIZE_MAX
    ensures MetaOf(marker + Digits(n), materials, d) == [MetaRef(materials[n - 1], n - 1)]
  {
    hide Pieces, Marker, Digits, Fallback;
    OnePiece(marker, n, d);
    EmitOne(Ref(marker + Digits(n), n), materials, d);
  }

  /** Two materials and a prompt that names neither: both are named in the fixed words. */
  lemma BothAreNamed(d: Dialect)
    ensures MetaOf("@9", ["image", "video"], d)
         == [MetaText("使用"), MetaRef("image", 0), MetaText("和"), MetaRef("video", 1), MetaText("素材，" + "@9")]
    ensures MetaOf("", ["image"], d) == [MetaText("使用"), MetaRef("image", 0), MetaText("素材生成视频")]
  {
    hide Pieces, EmitAll, Mentions, Closing;
    NineMisses(d);
    MentionsNext(["image", "video"], 0);
    MentionsNext(["image", "video"], 1);
    MentionsNext(["image"], 0);
    EmptyLeavesNothing(d);
  }

  lemma NineMisses(d: Dialect)
    ensures EmitAll(Pieces("@9", 0, d), ["image", "video"], d) == []
    ensures Closing("@9", d) == MetaText("素材，" + "@9")
  {
    assert Digits(9) == "9" && "@" + "9" == "@9";
    OnePiece("@", 9, d);
    EmitOne(Ref("@9", 9), ["image", "video"], d);
    assert !IsBlankChar("@9"[0], d);
  }

  lemma EmptyLeavesNothing(d: Dialect)
    ensures EmitAll(Pieces("", 0, d), ["image"], d) == []
    ensures Closing("", d) == MetaText("素材生成视频")
  {
    assert Pieces("", 0, d) == [];
  }
}
