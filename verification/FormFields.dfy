/** What the field reader gets back from a form, next to the file reader. */
module FormFields {
  import opened Text
  import opened Wrappers
  import opened Multipart
  import opened FormData

  /** Parts the field reader passes over: files, and text that looks like one. */
  predicate PassedOver(p: Part) {
    p.FilePart? || EndsWith(p.name, FILENAME) || Occurs(p.content, FILENAME_IS)
  }

  lemma NameMarkerIsPlain()
    ensures Lacks(CRLF + FORM_LEAD, '"') && Lacks(NAME, '"') && NAME_IS == NAME + QUOTE
    ensures OnOneLine(FILENAME_IS) && FILENAME_IS != ""
  {}

  lemma Regrouped(a: string, b: string, c: string, d: string, e: string, f: string, g: string)
    ensures a + (b + c + d + e + d + f) + g == a + b + (c + d) + (e + d + (f + g))
  {}

  lemma NameRead(p: Part, after: string)
    requires NameFits(p.name)
    ensures HeaderValue(CRLF + Disposition(p) + after, NAME_IS, QUOTE) == Some(p.name)
  {
    NameMarkerIsPlain();
    Regrouped(CRLF, FORM_LEAD, NAME, QUOTE, p.name, FilenameParam(p), after);
    var before, rest := CRLF + FORM_LEAD, p.name + QUOTE + (FilenameParam(p) + after);
    MarkerAtQuote(before, NAME, rest);
    JoinRight(before, NAME, QUOTE);
    ValueRead(before, NAME_IS, p.name, FilenameParam(p) + after);
    hide HeaderValue, FilenameParam;
  }

  lemma ValueTrimmed(content: string)
    ensures Trim(TrimEndMatches(content + CRLF, CRLF)) == Trim(content)
  {
    var rest, after := TrimEndMatchesSplits(content + CRLF, CRLF);
    TrimIgnoresEnd(rest, after);
    TrimIgnoresEnd(content, CRLF);
  }

  lemma MarkerInContent(content: string)
    ensures Occurs(BLANK_LINE + content + CRLF, FILENAME_IS) <==> Occurs(content, FILENAME_IS)
  {
    NameMarkerIsPlain();
    NotAcrossLines("", "" + CRLF + (content + CRLF + ""), FILENAME_IS);
    NotAcrossLines("", content + CRLF + "", FILENAME_IS);
    NotAcrossLines(content, "", FILENAME_IS);
    assert BLANK_LINE + content + CRLF == "" + CRLF + ("" + CRLF + (content + CRLF + ""));
  }

  /** What follows the disposition in a part. */
  function AfterDisposition(p: Part): string {
    TypeLine(p) + BLANK_LINE + p.content + CRLF
  }

  lemma PartGroups(p: Part)
    ensures PartBytes(p) == CRLF + Disposition(p) + AfterDisposition(p)
    ensures PartBytes(p) == HeaderOf(p) + BLANK_LINE + (p.content + CRLF)
  {
    JoinFour(CRLF + Disposition(p), TypeLine(p), BLANK_LINE, p.content, CRLF);
    JoinRight(HeaderOf(p) + BLANK_LINE, p.content, CRLF);
    hide Disposition, TypeLine;
  }

  lemma JoinFour(a: string, b: string, c: string, d: string, e: string)
    ensures a + b + c + d + e == a + (b + c + d + e)
  {}

  lemma MarkerSeen(p: Part)
    requires WellFormed(p)
    ensures Occurs(PartBytes(p), FILENAME_IS) <==> PassedOver(p)
  {
    NamesOf(p);
    hide PartBytes, Disposition, EndsWith, At, WellFormed, NameFits, AfterDisposition;
    PartGroups(p);
    FilenameSeen(p, AfterDisposition(p));
    if p.TextPart? {
      TextGroups(p);
      MarkerInContent(p.content);
    }
  }

  lemma TextGroups(p: Part)
    requires p.TextPart?
    ensures AfterDisposition(p) == BLANK_LINE + p.content + CRLF
  {
    assert "" + BLANK_LINE == BLANK_LINE;
  }

  /** A text part is read, with its name and its trimmed value, exactly when its value does not contain
      `filename="` and its name does not end in `filename=`; a file part never is. */
  lemma FieldRead(p: Part)
    requires WellFormed(p)
    ensures FieldOf(PartBytes(p)) == if PassedOver(p) then None else Some(Field(p.name, Trim(p.content)))
  {
    hide WellFormed, PassedOver, HeaderValue, Trim, TrimEndMatches, Occurs, PartBytes, Disposition, HeaderOf;
    MarkerSeen(p);
    ValueTrimmed(p.content);
    NamesOf(p);
    PartGroups(p);
    NameRead(p, AfterDisposition(p));
    HeaderEnds(p, p.content + CRLF);
    CutAround(HeaderOf(p), BLANK_LINE, p.content + CRLF);
  }

  lemma NamesOf(p: Part)
    requires WellFormed(p)
    ensures NameFits(p.name)
    ensures p.FilePart? ==> NameFits(p.filename) && (p.contentType.Some? ==> OnOneLine(p.contentType.value))
  {}

  lemma PromptIsLost()
    ensures var p := TextPart("prompt", "set " + FILENAME_IS + "cat\"");
            FieldOf(PartBytes(p)) == None && FileOf(PartBytes(p)) == None
  {
    var p := TextPart("prompt", "set " + FILENAME_IS + "cat\"");
    OccursBetween("set ", FILENAME_IS, "cat\"");
    assert WellFormed(p);
    hide FieldOf, FileOf, PartBytes, Occurs, WellFormed;
    FieldRead(p);
    FileRead(p);
  }

  function FieldsIn(f: Fields, form: seq<Part>): Fields
    decreases |form|
  {
    if form == [] then f
    else
      var p := form[0];
      FieldsIn(if PassedOver(p) then f else WithField(f, p.name, Trim(p.content)), form[1..])
  }

  lemma NoFieldThere()
    ensures FieldOf("") == None && FieldOf(CLOSING) == None
  {
    TooShort(CLOSING, NAME_IS);
    TooShort("", NAME_IS);
  }

  lemma FieldsOfCons(f: Fields, part: string, rest: seq<string>)
    ensures FieldsOf(f, [part] + rest)
         == (var field := FieldOf(part);
             FieldsOf(if field.Some? then WithField(f, field.value.name, field.value.value) else f, rest))
  {
    assert ([part] + rest)[1..] == rest;
    hide FieldOf, WithField;
  }

  lemma {:induction false} FormRead(f: Fields, form: seq<Part>, delimiter: string)
    requires FormFits(form, delimiter)
    ensures FieldsOf(f, PartsBytes(form) + [CLOSING]) == FieldsIn(f, form)
    decreases |form|
  {
    hide FieldOf, PartBytes, WithField, PassedOver, WellFormed, Trim, FormFits;
    if form == [] {
      NoFieldThere();
      FieldsOfCons(f, CLOSING, []);
      assert PartsBytes(form) + [CLOSING] == [CLOSING] + [];
    } else {
      var p := form[0];
      FormFitsCons(form, delimiter);
      FieldRead(p);
      Cons(PartBytes(p), PartsBytes(form[1..]), CLOSING);
      FieldsOfCons(f, PartBytes(p), PartsBytes(form[1..]) + [CLOSING]);
      FormRead(if PassedOver(p) then f else WithField(f, p.name, Trim(p.content)), form[1..], delimiter);
    }
  }

  lemma FormFieldsAre(boundary: string, form: seq<Part>)
    requires BoundaryFits(boundary) && FormFits(form, "--" + boundary)
    ensures FormFields(ContentType(boundary), Encode(boundary, form)) == FieldsIn(NO_FIELDS, form)
  {
    hide Encode, Boundary, Split, PartsBytes, FieldsOf, FieldsIn, FormFits, FieldOf;
    BoundaryFound(boundary);
    BodySplits(boundary, form);
    var rest := PartsBytes(form) + [CLOSING];
    assert [""] + PartsBytes(form) + [CLOSING] == [""] + rest;
    FirstPieceEmpty(rest);
    FormRead(NO_FIELDS, form, "--" + boundary);
  }

  lemma FirstPieceEmpty(rest: seq<string>)
    ensures FieldsOf(NO_FIELDS, [""] + rest) == FieldsOf(NO_FIELDS, rest)
  {
    NoFieldThere();
    FieldsOfCons(NO_FIELDS, "", rest);
    hide FieldOf, FieldsOf;
  }

  /** The trimmed value of the last text part of that name that the field reader does not pass over. */
  function LastValue(form: seq<Part>, name: string): Option<string> {
    if form == [] then None
    else
      var later := LastValue(form[1..], name);
      if later.Some? then later
      else if form[0].name == name && !PassedOver(form[0]) then Some(Trim(form[0].content))
      else None
  }

  function Or(value: Option<string>, other: Option<string>): Option<string> {
    if value.Some? then value else other
  }

  lemma {:induction false} LastWins(f: Fields, form: seq<Part>)
    ensures var r := FieldsIn(f, form);
            && Some(r.prompt) == Or(LastValue(form, "prompt"), Some(f.prompt))
            && r.model == Or(LastValue(form, "model"), f.model)
            && r.duration == (var d := LastValue(form, "duration"); if d.Some? then ParseI32(d.value) else f.duration)
    decreases |form|
  {
    hide PassedOver, Trim, ParseI32;
    if form != [] {
      var p := form[0];
      LastWins(if PassedOver(p) then f else WithField(f, p.name, Trim(p.content)), form[1..]);
    }
  }

  lemma {:induction false} LastOptionWins(f: Fields, form: seq<Part>)
    ensures var r := FieldsIn(f, form);
            && r.ratio == Or(LastValue(form, "ratio"), f.ratio)
            && r.resolution == Or(LastValue(form, "resolution"), f.resolution)
            && r.webhookUrl == Or(LastValue(form, "webhook_url"), f.webhookUrl)
    decreases |form|
  {
    hide PassedOver, Trim, ParseI32;
    if form != [] {
      var p := form[0];
      LastOptionWins(if PassedOver(p) then f else WithField(f, p.name, Trim(p.content)), form[1..]);
    }
  }

  /** Both readers on one body: the files go to the file reader, in order and unchanged; each field has
      the trimmed value of the last text part that names it, and no file part touches it. */
  lemma ReadersShareTheBody(boundary: string, form: seq<Part>)
    requires BoundaryFits(boundary) && FormFits(form, "--" + boundary)
    ensures Files(ContentType(boundary), Encode(boundary, form)) == FilesIn(form)
    ensures var r := FormFields(ContentType(boundary), Encode(boundary, form));
            && r.prompt == (var v := LastValue(form, "prompt"); if v.Some? then v.value else "")
            && r.model == LastValue(form, "model")
            && r.ratio == LastValue(form, "ratio")
            && r.resolution == LastValue(form, "resolution")
            && r.webhookUrl == LastValue(form, "webhook_url")
            && r.duration == (var d := LastValue(form, "duration"); if d.Some? then ParseI32(d.value) else None)
  {
    FilesRoundTrip(boundary, form);
    FormFieldsAre(boundary, form);
    LastWins(NO_FIELDS, form);
    LastOptionWins(NO_FIELDS, form);
    hide Files, FormFields, FieldsIn, LastValue, ParseI32;
  }
}
