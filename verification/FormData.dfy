/** Writing a form as multipart/form-data, and what the two readers get back from it. */
module FormData {
  import opened Text
  import opened Wrappers
  import opened Multipart

  /** One form field: a text value or a file. */
  datatype Part =
    | TextPart(name: string, content: string)
    | FilePart(name: string, filename: string, contentType: Option<string>, content: string)

  const FORM_LEAD := "Content-Disposition: form-data; "
  const NAME := "name="
  const LEAD := FORM_LEAD + NAME
  const TYPE_KEY := "Content-Type"
  const CLOSING := "--\r\n"
  const FORM_DATA := "multipart/form-data; "
  const BOUNDARY_IS := "boundary="
  const FILENAME := "filename="

  function FilenameParam(p: Part): string {
    match p
    case TextPart(_, _) => ""
    case FilePart(_, filename, _, _) => "; " + FILENAME_IS + filename + QUOTE
  }

  function Disposition(p: Part): string {
    LEAD + QUOTE + p.name + QUOTE + FilenameParam(p)
  }

  function TypeHeader(contentType: string): string {
    TYPE_KEY + ":" + (" " + contentType)
  }

  function TypeLine(p: Part): string {
    if p.FilePart? && p.contentType.Some? then CRLF + TypeHeader(p.contentType.value) else ""
  }

  function HeaderOf(p: Part): string {
    CRLF + Disposition(p) + TypeLine(p)
  }

  /** A part as it stands between two delimiters. */
  function PartBytes(p: Part): string {
    HeaderOf(p) + BLANK_LINE + p.content + CRLF
  }

  /** What follows the first delimiter. */
  function Tail(delimiter: string, form: seq<Part>): string {
    if form == [] then CLOSING else PartBytes(form[0]) + delimiter + Tail(delimiter, form[1..])
  }

  /** The body, as RFC 2046 section 5.1.1 lays it out. */
  function Encode(boundary: string, form: seq<Part>): string {
    "--" + boundary + Tail("--" + boundary, form)
  }

  function ContentType(boundary: string): string {
    FORM_DATA + BOUNDARY_IS + boundary
  }

  // What a form must satisfy

  predicate OnOneLine(s: string) {
    Lacks(s, '\r') && Lacks(s, '\n')
  }

  predicate BoundaryFits(boundary: string) {
    boundary != "" && Trimmed(boundary) && OnOneLine(boundary) && !Occurs(boundary, BOUNDARY_IS)
  }

  predicate NameFits(s: string) {
    OnOneLine(s) && Lacks(s, '"')
  }

  /** Names that can be quoted, values that stay on their line. */
  predicate WellFormed(p: Part) {
    && NameFits(p.name)
    && (p.FilePart? ==> NameFits(p.filename))
    && (p.FilePart? && p.contentType.Some? ==> OnOneLine(p.contentType.value) && Trimmed(p.contentType.value))
  }

  /** The delimiter is in no header and no content. */
  predicate Fits(p: Part, delimiter: string) {
    WellFormed(p) && !Occurs(HeaderOf(p), delimiter) && !Occurs(p.content, delimiter)
  }

  predicate FormFits(form: seq<Part>, delimiter: string) {
    forall i :: 0 <= i < |form| ==> Fits(form[i], delimiter)
  }

  // Cutting the body

  lemma NotAcrossLines(a: string, b: string, needle: string)
    requires needle != "" && OnOneLine(needle)
    ensures Occurs(a + CRLF + b, needle) <==> Occurs(a, needle) || Occurs(b, needle)
  {
    NotAcross(a, '\r', "\n" + b, needle);
    NotAcross("", '\n', b, needle);
    assert a + CRLF + b == a + ['\r'] + ("\n" + b);
    assert "" + ['\n'] + b == "\n" + b;
  }

  lemma DelimiterNotInside(p: Part, delimiter: string)
    requires delimiter != "" && OnOneLine(delimiter)
    ensures Occurs(PartBytes(p), delimiter) <==> Occurs(HeaderOf(p), delimiter) || Occurs(p.content, delimiter)
  {
    var h, c := HeaderOf(p), p.content;
    assert PartBytes(p) == h + CRLF + ("" + CRLF + (c + CRLF + ""));
    NotAcrossLines(h, "" + CRLF + (c + CRLF + ""), delimiter);
    NotAcrossLines("", c + CRLF + "", delimiter);
    NotAcrossLines(c, "", delimiter);
  }

  function PartsBytes(form: seq<Part>): seq<string> {
    if form == [] then [] else [PartBytes(form[0])] + PartsBytes(form[1..])
  }

  lemma ClosingHasNoDelimiter(boundary: string)
    requires boundary != "" && OnOneLine(boundary)
    ensures !Occurs(CLOSING, "--" + boundary)
  {
    var needle := "--" + boundary;
    assert needle[2] == boundary[0];
    if Occurs(CLOSING, needle) {
      var i := Find(CLOSING, needle).value;
      AtChar(CLOSING, i, needle, 2);
    }
  }

  lemma DelimiterOnOneLine(boundary: string)
    requires OnOneLine(boundary)
    ensures OnOneLine("--" + boundary) && Lacks("--" + boundary, '\n')
  {}

  lemma PartEnds(p: Part)
    ensures PartBytes(p) != "" && PartBytes(p)[|PartBytes(p)| - 1] == '\n'
  {}

  lemma {:induction false} TailSplits(boundary: string, form: seq<Part>)
    requires boundary != "" && OnOneLine(boundary) && FormFits(form, "--" + boundary)
    ensures Split(Tail("--" + boundary, form), "--" + boundary) == PartsBytes(form) + [CLOSING]
  {
    var delimiter := "--" + boundary;
    if form == [] {
      ClosingHasNoDelimiter(boundary);
    } else {
      var piece := PartBytes(form[0]);
      DelimiterOnOneLine(boundary);
      DelimiterNotInside(form[0], delimiter);
      PartEnds(form[0]);
      TailSplits(boundary, form[1..]);
      hide Split, PartBytes, FormFits, OnOneLine;
      SplitAfter(piece, delimiter, Tail(delimiter, form[1..]));
    }
  }

  /** The delimiters cut the body into exactly the parts that were written, and the closing `--`. */
  lemma BodySplits(boundary: string, form: seq<Part>)
    requires boundary != "" && OnOneLine(boundary) && FormFits(form, "--" + boundary)
    ensures Split(Encode(boundary, form), "--" + boundary) == [""] + PartsBytes(form) + [CLOSING]
  {
    var delimiter := "--" + boundary;
    assert Encode(boundary, form) == delimiter + Tail(delimiter, form);
    assert "" + delimiter == delimiter;
    TailSplits(boundary, form);
    hide Tail, PartsBytes, FormFits;
    SplitAfter("", delimiter, Tail(delimiter, form));
  }

  lemma LeadHasNoMarker()
    ensures !Occurs(FORM_DATA, BOUNDARY_IS) && Lacks(BOUNDARY_IS, FORM_DATA[|FORM_DATA| - 1])
  {
    assert Lacks(FORM_DATA, 'b');
    if Occurs(FORM_DATA, BOUNDARY_IS) {
      AtChar(FORM_DATA, Find(FORM_DATA, BOUNDARY_IS).value, BOUNDARY_IS, 0);
    }
  }

  lemma SecondPiece(lead: string, marker: string, rest: string)
    requires marker != "" && lead != "" && !Occurs(lead, marker) && Lacks(marker, lead[|lead| - 1])
        && !Occurs(rest, marker)
    ensures Split(lead + marker + rest, marker) == [lead, rest]
  {
    SplitAfter(lead, marker, rest);
  }

  /** The boundary is read back from the content type. */
  lemma BoundaryFound(boundary: string)
    requires BoundaryFits(boundary)
    ensures Boundary(ContentType(boundary)) == boundary
  {
    LeadHasNoMarker();
    SecondPiece(FORM_DATA, BOUNDARY_IS, boundary);
    TrimIs("", boundary, "");
    assert "" + boundary + "" == boundary;
    hide Split, Trim;
  }

  // Reading a header

  /** A marker that ends in its only quote is found where the first quote is, if it is there. */
  lemma MarkerAtQuote(a: string, marker: string, rest: string)
    requires Lacks(a, '"') && Lacks(marker, '"')
    ensures Find(a + marker + QUOTE + rest, marker + QUOTE) == Some(|a|)
  {
    var s, needle := a + marker + QUOTE + rest, marker + QUOTE;
    assert At(s, |a|, needle);
    forall j | 0 <= j < |a|
      ensures !At(s, j, needle)
    {
      assert s[j + |marker|] == (a + marker)[j + |marker|];
      if At(s, j, needle) {
        AtChar(s, j, needle, |marker|);
      }
    }
    FindIs(s, needle, |a|);
  }

  /** A quote that the marker does not come before is passed over. */
  lemma QuotePassed(a: string, marker: string, rest: string)
    requires Lacks(a, '"') && Lacks(marker, '"') && !EndsWith(a, marker)
    ensures Find(a + QUOTE + rest, marker + QUOTE)
         == (var f := Find(rest, marker + QUOTE); if f.Some? then Some(|a| + 1 + f.value) else None)
  {
    var s, needle := a + QUOTE + rest, marker + QUOTE;
    assert s[|a|] == '"';
    forall j | 0 <= j < |a + QUOTE|
      ensures !At(s, j, needle)
    {
      if j + |marker| == |a| {
        assert s[j..j + |needle|][..|marker|] == a[j..];
        assert needle[..|marker|] == marker;
      } else if At(s, j, needle) {
        AtChar(s, j, needle, |marker|);
        AtChar(s, j, needle, |a| - j);
      }
    }
    FindShift(a + QUOTE, rest, needle);
  }

  lemma UpToQuote(value: string, rest: string)
    requires Lacks(value, '"')
    ensures Find(value + QUOTE + rest, QUOTE) == Some(|value|)
  {
    if Occurs(value, QUOTE) {
      AtChar(value, Find(value, QUOTE).value, QUOTE, 0);
    }
    FoundAfter(value, QUOTE, rest);
  }

  /** A field name that ends in `filename=` looks like a file's name to both readers. */
  predicate Misread(p: Part) {
    EndsWith(p.name, FILENAME)
  }

  lemma LeadIsPlain()
    ensures Lacks(CRLF + LEAD, '"') && !EndsWith(CRLF + LEAD, FILENAME) && |CRLF + LEAD| == |LEAD| + 2
    ensures Lacks(FILENAME, '"') && FILENAME_IS == FILENAME + QUOTE && |FILENAME_IS| == 10
    ensures OnOneLine(LEAD) && OnOneLine(TYPE_KEY) && LEAD != ""
  {
    var a := CRLF + LEAD;
    assert a[|a| - 9] == 't';
    assert a[|a| - 9..][0] == a[|a| - 9] && FILENAME[0] == 'f';
  }

  /** Where a marker is first seen behind a quoted name: in the name's own end, or after it. */
  lemma SeenBehindName(lead: string, name: string, rest: string, marker: string)
    requires Lacks(lead, '"') && Lacks(marker, '"') && Lacks(name, '"') && !EndsWith(lead, marker)
    ensures Find(lead + QUOTE + (name + QUOTE + rest), marker + QUOTE)
         == if EndsWith(name, marker) then Some(|lead| + 1 + |name| - |marker|)
            else var f := Find(rest, marker + QUOTE); if f.Some? then Some(|lead| + |name| + 2 + f.value) else None
  {
    QuotePassed(lead, marker, name + QUOTE + rest);
    if EndsWith(name, marker) {
      var core := name[..|name| - |marker|];
      assert name == core + marker;
      MarkerAtQuote(core, marker, rest);
    } else {
      QuotePassed(name, marker, rest);
    }
  }

  lemma Regroup(a: string, b: string, c: string, d: string, e: string, f: string)
    ensures a + (b + c + d + c + e) + f == (a + b) + c + (d + c + (e + f))
  {}

  /** Where `filename="` is first seen in a part: behind a field name that ends like it, else where the
      parameter is, else in what follows the disposition. */
  lemma FilenameSeen(p: Part, after: string)
    requires NameFits(p.name)
    ensures var s := CRLF + Disposition(p) + after;
            var from := |LEAD| + 3 + |p.name|;
            Find(s, FILENAME_IS) ==
              if Misread(p) then Some(from - 9)
              else if p.FilePart? then Some(from + 3)
              else var f := Find(after, FILENAME_IS); if f.Some? then Some(from + 1 + f.value) else None
  {
    var lead := CRLF + LEAD;
    LeadIsPlain();
    hide EndsWith, At;
    Regroup(CRLF, LEAD, QUOTE, p.name, FilenameParam(p), after);
    SeenBehindName(lead, p.name, FilenameParam(p) + after, FILENAME);
    if p.FilePart? {
      ParamSeen(p.filename, after);
    } else {
      assert FilenameParam(p) + after == after;
    }
  }

  lemma ParamSeen(filename: string, after: string)
    ensures Find("; " + FILENAME_IS + filename + QUOTE + after, FILENAME_IS) == Some(2)
  {
    LeadIsPlain();
    var rest := filename + QUOTE + after;
    MarkerAtQuote("; ", FILENAME, rest);
    assert "; " + FILENAME + QUOTE + rest == "; " + FILENAME_IS + filename + QUOTE + after;
  }

  /** The file name the reader gets: the one written, unless the field name ends in `filename=`. */
  function SeenFilename(p: Part): string
    requires p.FilePart?
  {
    if Misread(p) then "; " + FILENAME else p.filename
  }

  lemma ValueRead(before: string, marker: string, value: string, after: string)
    requires Lacks(value, '"')
    requires Find(before + marker + (value + QUOTE + after), marker) == Some(|before|)
    ensures HeaderValue(before + marker + (value + QUOTE + after), marker, QUOTE) == Some(value)
  {
    var rest := value + QUOTE + after;
    var header := before + marker + rest;
    assert header[|before| + |marker|..] == rest;
    UpToQuote(value, after);
    assert rest[..|value|] == value;
  }

  /** The three ways to group a file part's header around its file name. */
  lemma HeaderGroups(p: Part)
    requires p.FilePart?
    ensures HeaderOf(p)
         == CRLF + LEAD + QUOTE + p.name + QUOTE + "; " + FILENAME_IS + (p.filename + QUOTE + TypeLine(p))
    ensures Misread(p) ==>
      HeaderOf(p) == CRLF + LEAD + QUOTE + p.name[..|p.name| - 9] + FILENAME_IS
                     + ("; " + FILENAME + QUOTE + (p.filename + QUOTE + TypeLine(p)))
  {
    LeadIsPlain();
    GroupsOf(CRLF, LEAD, QUOTE, p.name, "; ", FILENAME_IS, p.filename, TypeLine(p));
    if Misread(p) {
      var core := p.name[..|p.name| - 9];
      assert p.name == core + FILENAME;
      GroupsOf2(CRLF + LEAD + QUOTE, core, FILENAME, QUOTE, "; ", p.filename + QUOTE + TypeLine(p));
    }
    hide TypeLine;
  }

  lemma GroupsOf(a: string, b: string, c: string, d: string, e: string, f: string, g: string, h: string)
    ensures a + (b + c + d + c + (e + f + g + c)) + h == a + b + c + d + c + e + f + (g + c + h)
  {}

  lemma GroupsOf2(a: string, b: string, c: string, d: string, e: string, f: string)
    ensures a + (b + c) + d + e + (c + d) + f == a + b + (c + d) + (e + c + d + f)
  {}

  lemma FilenameRead(p: Part)
    requires NameFits(p.name) && (p.FilePart? ==> NameFits(p.filename))
    ensures HeaderValue(HeaderOf(p), FILENAME_IS, QUOTE) == if p.FilePart? then Some(SeenFilename(p)) else None
  {
    LeadIsPlain();
    FilenameSeen(p, TypeLine(p));
    if p.FilePart? {
      HeaderGroups(p);
      if Misread(p) {
        var before := CRLF + LEAD + QUOTE + p.name[..|p.name| - 9];
        ValueRead(before, FILENAME_IS, "; " + FILENAME, p.filename + QUOTE + TypeLine(p));
      } else {
        var before := CRLF + LEAD + QUOTE + p.name + QUOTE + "; ";
        ValueRead(before, FILENAME_IS, p.filename, TypeLine(p));
      }
    } else if Misread(p) {
      assert HeaderOf(p)[|LEAD| + 3 + |p.name| - 9 + 10..] == "";
    }
    hide HeaderValue, EndsWith, TypeLine;
  }

  /** The blank line is not seen before the end of a line that is not empty. */
  lemma LinePassed(line: string, rest: string)
    requires line != "" && Lacks(line, '\r')
    ensures Find(CRLF + line + rest, BLANK_LINE)
         == (var f := Find(rest, BLANK_LINE); if f.Some? then Some(2 + |line| + f.value) else None)
  {
    var a := CRLF + line;
    var s := a + rest;
    forall j | 0 <= j < |a|
      ensures !At(s, j, BLANK_LINE)
    {
      if At(s, j, BLANK_LINE) {
        AtChar(s, j, BLANK_LINE, 0);
        AtChar(s, j, BLANK_LINE, 2);
      }
    }
    FindShift(a, rest, BLANK_LINE);
  }

  lemma LacksJoin(a: string, b: string, c: char)
    ensures Lacks(a + b, c) <==> Lacks(a, c) && Lacks(b, c)
  {
    if Lacks(a + b, c) {
      assert forall i :: 0 <= i < |a| ==> (a + b)[i] == a[i];
      assert forall i :: 0 <= i < |b| ==> (a + b)[|a| + i] == b[i];
    }
  }

  lemma OneLineJoin(a: string, b: string)
    requires OnOneLine(a) && OnOneLine(b)
    ensures OnOneLine(a + b)
  {
    LacksJoin(a, b, '\r');
    LacksJoin(a, b, '\n');
  }

  lemma HeaderLines(p: Part)
    requires NameFits(p.name)
    requires p.FilePart? ==> NameFits(p.filename) && (p.contentType.Some? ==> OnOneLine(p.contentType.value))
    ensures OnOneLine(Disposition(p)) && Disposition(p) != ""
    ensures p.FilePart? && p.contentType.Some? ==> OnOneLine(TypeHeader(p.contentType.value))
  {
    LeadIsPlain();
    OneLineJoin(LEAD, QUOTE);
    OneLineJoin(LEAD + QUOTE, p.name);
    OneLineJoin(LEAD + QUOTE + p.name, QUOTE);
    if p.FilePart? {
      OneLineJoin("; ", FILENAME_IS);
      OneLineJoin("; " + FILENAME_IS, p.filename);
      OneLineJoin("; " + FILENAME_IS + p.filename, QUOTE);
      if p.contentType.Some? {
        OneLineJoin(TYPE_KEY, ":");
        OneLineJoin(" ", p.contentType.value);
        OneLineJoin(TYPE_KEY + ":", " " + p.contentType.value);
      }
    }
    OneLineJoin(LEAD + QUOTE + p.name + QUOTE, FilenameParam(p));
    hide OnOneLine;
  }

  lemma OneLineEnds(first: string, rest: string)
    requires first != "" && OnOneLine(first)
    ensures Find(CRLF + first + BLANK_LINE + rest, BLANK_LINE) == Some(2 + |first|)
  {
    FindIs(BLANK_LINE + rest, BLANK_LINE, 0);
    LinePassed(first, BLANK_LINE + rest);
    assert CRLF + first + BLANK_LINE + rest == CRLF + first + (BLANK_LINE + rest);
  }

  lemma TwoLinesEnd(first: string, second: string, rest: string)
    requires first != "" && second != "" && OnOneLine(first) && OnOneLine(second)
    ensures Find(CRLF + first + (CRLF + second) + BLANK_LINE + rest, BLANK_LINE) == Some(4 + |first| + |second|)
  {
    OneLineEnds(second, rest);
    LinePassed(first, CRLF + second + BLANK_LINE + rest);
    assert CRLF + first + (CRLF + second) + BLANK_LINE + rest == CRLF + first + (CRLF + second + BLANK_LINE + rest);
  }

  lemma HeaderEnds(p: Part, rest: string)
    requires NameFits(p.name)
    requires p.FilePart? ==> NameFits(p.filename) && (p.contentType.Some? ==> OnOneLine(p.contentType.value))
    ensures Find(HeaderOf(p) + BLANK_LINE + rest, BLANK_LINE) == Some(|HeaderOf(p)|)
  {
    HeaderLines(p);
    LeadIsPlain();
    hide OnOneLine, Disposition;
    if p.FilePart? && p.contentType.Some? {
      TwoLinesEnd(Disposition(p), TypeHeader(p.contentType.value), rest);
    } else {
      OneLineEnds(Disposition(p), rest);
      assert HeaderOf(p) == CRLF + Disposition(p);
    }
  }

  // The content type

  /** The first header line that names a content type counts, in any case. */
  lemma {:induction false} FirstTypeCounts(before: seq<string>, line: string, after: seq<string>)
    requires forall i :: 0 <= i < |before| ==> !StartsWith(Lower(before[i]), CONTENT_TYPE_IS)
    requires StartsWith(Lower(line), CONTENT_TYPE_IS)
    ensures FirstContentType(before + [line] + after) == Trim(AfterColon(line))
  {
    hide StartsWith, Lower, Trim, AfterColon;
    var all := before + [line] + after;
    if before == [] {
      assert all[0] == line;
    } else {
      assert all[0] == before[0] && all[1..] == before[1..] + [line] + after;
      FirstTypeCounts(before[1..], line, after);
    }
  }

  lemma FirstLine(line: string, rest: string)
    requires Lacks(line, '\n')
    ensures Lines(line + CRLF + rest) == [line] + Lines(rest)
  {
    var s := line + CRLF + rest;
    var upTo := line + "\r";
    if Occurs(upTo, "\n") {
      AtChar(upTo, Find(upTo, "\n").value, "\n", 0);
    }
    assert s == upTo + "\n" + rest;
    FoundAfter(upTo, "\n", rest);
    assert s[..|upTo|] == upTo && s[|upTo| + 1..] == rest;
    assert upTo[..|line|] == line;
  }

  lemma LastLine(line: string)
    requires line != "" && Lacks(line, '\n')
    ensures Lines(line) == [line]
  {
    if Occurs(line, "\n") {
      AtChar(line, Find(line, "\n").value, "\n", 0);
    }
  }

  lemma DispositionIsNotType(p: Part)
    ensures !StartsWith(Lower(Disposition(p)), CONTENT_TYPE_IS)
  {
    var lower := Lower(Disposition(p));
    assert Disposition(p)[8] == 'D';
    assert lower[8] == 'd';
    assert CONTENT_TYPE_IS[8] == 't';
    if |lower| >= 13 {
      assert lower[..13][8] == lower[8];
    }
  }

  lemma LowerJoin(a: string, b: string)
    ensures StartsWith(Lower(a + b), Lower(a))
  {
    assert Lower(a + b)[..|a|] == Lower(a);
  }

  lemma NoColon(s: string)
    requires Lacks(s, ':')
    ensures !Occurs(s, ":")
  {
    if Occurs(s, ":") {
      AtChar(s, Find(s, ":").value, ":", 0);
    }
  }

  lemma KeyInLowerCase()
    ensures Lower(TYPE_KEY + ":") == CONTENT_TYPE_IS
  {
    var key := TYPE_KEY + ":";
    var lower := Lower(key);
    assert lower[0] == 'c' && lower[1] == 'o' && lower[2] == 'n' && lower[3] == 't' && lower[4] == 'e';
    assert lower[5] == 'n' && lower[6] == 't' && lower[7] == '-' && lower[8] == 't' && lower[9] == 'y';
    assert lower[10] == 'p' && lower[11] == 'e' && lower[12] == ':';
  }

  lemma KeyIsPlain()
    ensures !Occurs(TYPE_KEY, ":") && TYPE_KEY[|TYPE_KEY| - 1] != ':'
  {
    NoColon(TYPE_KEY);
    hide Occurs;
  }

  lemma ValueAfterColon(key: string, value: string)
    requires key != "" && !Occurs(key, ":") && key[|key| - 1] != ':'
    ensures AfterColon(key + ":" + value) == value
  {
    FoundAfter(key, ":", value);
    assert (key + ":" + value)[|key| + 1..] == value;
  }

  lemma TypeLineRead(contentType: string)
    requires Trimmed(contentType)
    ensures var line := TypeHeader(contentType);
            StartsWith(Lower(line), CONTENT_TYPE_IS) && Trim(AfterColon(line)) == contentType
  {
    KeyIsPlain();
    KeyInLowerCase();
    hide Lower, StartsWith, Trim, AfterColon;
    LowerJoin(TYPE_KEY + ":", " " + contentType);
    ValueAfterColon(TYPE_KEY, " " + contentType);
    TrimIs(" ", contentType, "");
    assert " " + contentType + "" == " " + contentType;
  }

  /** The content type written, or the default. */
  function SeenType(p: Part): string {
    if p.FilePart? && p.contentType.Some? then p.contentType.value else "application/octet-stream"
  }

  lemma TypeOfOneLine(first: string)
    requires first != "" && OnOneLine(first) && !StartsWith(Lower(first), CONTENT_TYPE_IS)
    ensures FirstContentType(Lines(CRLF + first)) == OCTETS
  {
    FirstLine("", first);
    LastLine(first);
    assert "" + CRLF + first == CRLF + first;
    assert ([""] + [first])[1..] == [first];
    assert !StartsWith(Lower(""), CONTENT_TYPE_IS);
    assert FirstContentType([first]) == OCTETS;
  }

  lemma TypeOnThirdLine(a: string, b: string, c: string)
    requires !StartsWith(Lower(a), CONTENT_TYPE_IS) && !StartsWith(Lower(b), CONTENT_TYPE_IS)
    requires StartsWith(Lower(c), CONTENT_TYPE_IS)
    ensures FirstContentType([a, b, c]) == Trim(AfterColon(c))
  {
    hide StartsWith, Lower, Trim, AfterColon;
    assert [a, b, c][1..] == [b, c] && [b, c][1..] == [c];
    assert FirstContentType([c]) == Trim(AfterColon(c));
    assert FirstContentType([b, c]) == FirstContentType([c]);
  }

  lemma ThreeLines(first: string, second: string)
    requires second != "" && OnOneLine(first) && OnOneLine(second)
    ensures Lines(CRLF + first + (CRLF + second)) == ["", first, second]
  {
    FirstLine("", first + CRLF + second);
    FirstLine(first, second);
    LastLine(second);
    hide Lines, OnOneLine;
    JoinThree(CRLF, first, CRLF, second);
  }

  lemma JoinThree(a: string, b: string, c: string, d: string)
    ensures a + b + (c + d) == "" + a + (b + c + d)
  {}

  lemma TypeOfTwoLines(first: string, second: string)
    requires second != "" && OnOneLine(first) && OnOneLine(second)
    requires !StartsWith(Lower(first), CONTENT_TYPE_IS) && StartsWith(Lower(second), CONTENT_TYPE_IS)
    ensures FirstContentType(Lines(CRLF + first + (CRLF + second))) == Trim(AfterColon(second))
  {
    assert !StartsWith(Lower(""), CONTENT_TYPE_IS);
    TypeOnThirdLine("", first, second);
    hide StartsWith, Lower, Trim, AfterColon, FirstContentType, Lines;
    ThreeLines(first, second);
  }

  lemma TypeRead(p: Part)
    requires NameFits(p.name)
    requires p.FilePart? ==> NameFits(p.filename)
    requires p.FilePart? && p.contentType.Some? ==> OnOneLine(p.contentType.value) && Trimmed(p.contentType.value)
    ensures FirstContentType(Lines(HeaderOf(p))) == SeenType(p)
  {
    HeaderLines(p);
    LeadIsPlain();
    DispositionIsNotType(p);
    hide OnOneLine, Disposition, StartsWith, FirstContentType, Lines, Lower;
    if p.FilePart? && p.contentType.Some? {
      TypeLineRead(p.contentType.value);
      TypeOfTwoLines(Disposition(p), TypeHeader(p.contentType.value));
    } else {
      TypeOfOneLine(Disposition(p));
      assert HeaderOf(p) == CRLF + Disposition(p);
    }
  }

  // Reading a part

  lemma SuffixStripped(content: string)
    ensures StripSuffix(content + CRLF, CRLF) == content
  {
    var rest := content + CRLF;
    assert rest[..|content|] == content && rest[|content|..] == CRLF;
  }

  lemma FileOfShape(header: string, content: string)
    requires header != "" && header[0] != '-'
    requires Find(header + BLANK_LINE + (content + CRLF), BLANK_LINE) == Some(|header|)
    ensures FileOf(header + BLANK_LINE + content + CRLF) == FileWith(header, content)
  {
    hide FileWith, StripSuffix, At;
    JoinRight(header + BLANK_LINE, content, CRLF);
    CutAround(header, BLANK_LINE, content + CRLF);
    SuffixStripped(content);
  }

  lemma CutAround(a: string, b: string, c: string)
    ensures (a + b + c)[..|a|] == a && (a + b + c)[|a| + |b|..] == c
    ensures a != "" ==> (a + b + c)[0] == a[0]
  {}

  /** Browsers send an empty file name for a file input with no file chosen. */
  predicate HasFile(p: Part) {
    p.FilePart? && SeenFilename(p) != ""
  }

  /** A file part comes back as written unless its name is empty; a text part is never taken for a file. */
  lemma FileRead(p: Part)
    requires WellFormed(p)
    ensures FileOf(PartBytes(p)) == if HasFile(p) then Some(File(SeenFilename(p), SeenType(p), p.content)) else None
  {
    HeaderEnds(p, p.content + CRLF);
    assert HeaderOf(p)[0] == '\r';
    FilenameRead(p);
    TypeRead(p);
    hide Lines, FirstContentType, HeaderValue, HeaderOf, SeenType, FileOf;
    FileOfShape(HeaderOf(p), p.content);
  }

  function FilesIn(form: seq<Part>): seq<File> {
    if form == [] then []
    else
      var p := form[0];
      (if HasFile(p) then [File(SeenFilename(p), SeenType(p), p.content)] else []) + FilesIn(form[1..])
  }

  lemma ClosingRead()
    ensures FileOf(CLOSING) == None
  {
    assert StartsWith(CLOSING, "--");
  }

  lemma FilesOfCons(part: string, rest: seq<string>)
    ensures FilesOf([part] + rest) == (if FileOf(part).Some? then [FileOf(part).value] else []) + FilesOf(rest)
  {
    assert ([part] + rest)[1..] == rest;
    hide FileOf;
  }

  lemma Cons(part: string, rest: seq<string>, last: string)
    ensures [part] + rest + [last] == [part] + (rest + [last])
  {}

  lemma FormFitsCons(form: seq<Part>, delimiter: string)
    requires FormFits(form, delimiter) && form != []
    ensures WellFormed(form[0]) && Fits(form[0], delimiter) && FormFits(form[1..], delimiter)
  {
    assert Fits(form[0], delimiter);
    hide WellFormed;
  }

  lemma {:induction false} PartsRead(form: seq<Part>, delimiter: string)
    requires FormFits(form, delimiter)
    ensures FilesOf(PartsBytes(form) + [CLOSING]) == FilesIn(form)
  {
    hide FileOf, PartBytes, SeenFilename, SeenType, HasFile, WellFormed, FormFits, FilesOf;
    if form == [] {
      ClosingRead();
      FilesOfCons(CLOSING, []);
      NoFiles();
      assert PartsBytes(form) + [CLOSING] == [CLOSING] + [];
    } else {
      FormFitsCons(form, delimiter);
      FileRead(form[0]);
      Cons(PartBytes(form[0]), PartsBytes(form[1..]), CLOSING);
      FilesOfCons(PartBytes(form[0]), PartsBytes(form[1..]) + [CLOSING]);
      PartsRead(form[1..], delimiter);
    }
  }

  lemma NoFiles()
    ensures FilesOf([]) == []
  {}

  /** Round trip: the file reader returns exactly the files of the form, in order, byte for byte. */
  lemma FilesRoundTrip(boundary: string, form: seq<Part>)
    requires BoundaryFits(boundary) && FormFits(form, "--" + boundary)
    ensures Files(ContentType(boundary), Encode(boundary, form)) == FilesIn(form)
  {
    hide Encode, Boundary, Split, Tail, PartsBytes, FilesOf, FilesIn, FormFits;
    BoundaryFound(boundary);
    BodySplits(boundary, form);
    PartsRead(form, "--" + boundary);
    var parts := PartsBytes(form);
    var all := [""] + parts + [CLOSING];
    assert all[1..] == parts + [CLOSING];
    assert all[|all| - 1] == CLOSING;
  }

  /** A part is taken for a file exactly when its file name is not empty or the field name ends in `filename=`;
      in the second case every file name reads `; filename=`, so only that one is kept. */
  lemma FilenameKept(p: Part)
    requires p.FilePart? && WellFormed(p)
    ensures var file := FileOf(PartBytes(p));
            && (file.Some? <==> p.filename != "" || EndsWith(p.name, FILENAME))
            && (file.Some? && file.value.filename == p.filename
                <==> p.filename != "" && (!EndsWith(p.name, FILENAME) || p.filename == "; " + FILENAME))
  {
    hide FileOf, PartBytes, WellFormed, SeenType, EndsWith;
    FileRead(p);
  }

  lemma FilenameIsLost()
    ensures var p := FilePart(FILENAME, "a.png", None, "");
            FileOf(PartBytes(p)) == Some(File("; " + FILENAME, OCTETS, ""))
  {
    var p := FilePart(FILENAME, "a.png", None, "");
    assert EndsWith(FILENAME, FILENAME);
    assert WellFormed(p);
    hide FileOf, PartBytes, WellFormed, EndsWith;
    FileRead(p);
  }

  lemma WholeBodySkipped(contentType: string, body: string)
    requires Boundary(contentType) != "" && StartsWith(body, "--") && !Occurs(body, "--" + Boundary(contentType))
    ensures Files(contentType, body) == []
  {
    var delimiter := "--" + Boundary(contentType);
    assert Split(body, delimiter) == [body];
    assert Parts(body, delimiter) == [body];
    assert FileOf(body) == None && FilesOf([]) == [];
    hide Split, Parts, FileOf, Boundary;
    assert [body][1..] == [];
  }

  /** A boundary parameter written in quotes, as RFC 2046 allows, loses every file: the quotes are taken
      for part of it. */
  lemma QuotedBoundaryLosesFiles(boundary: string, form: seq<Part>)
    requires BoundaryFits(QUOTE + boundary + QUOTE)
    requires !Occurs(Encode(boundary, form), "--" + (QUOTE + boundary + QUOTE))
    ensures Files(ContentType(QUOTE + boundary + QUOTE), Encode(boundary, form)) == []
  {
    BoundaryFound(QUOTE + boundary + QUOTE);
    assert Encode(boundary, form)[..2] == "--";
    hide Encode, ContentType, Boundary, Files;
    WholeBodySkipped(ContentType(QUOTE + boundary + QUOTE), Encode(boundary, form));
  }

  lemma LongerIsAbsent(s: string, needle: string, more: string)
    requires !Occurs(s, needle)
    ensures !Occurs(s, needle + more)
  {
    if Occurs(s, needle + more) {
      var i := Find(s, needle + more).value;
      assert s[i..i + |needle|] == s[i..i + |needle + more|][..|needle|] == needle;
      OccursAt(s, needle, i);
    }
  }

  lemma PartHasNoMore(p: Part, delimiter: string, more: string, rest: string)
    requires Fits(p, delimiter) && more != "" && OnOneLine(delimiter + more)
    ensures Occurs(delimiter + (PartBytes(p) + rest), delimiter + more) <==> Occurs(rest, delimiter + more)
  {
    var needle, header := delimiter + more, Disposition(p) + TypeLine(p);
    hide Disposition, TypeLine, WellFormed, OnOneLine;
    LongerIsAbsent(HeaderOf(p), delimiter, more);
    LongerIsAbsent(p.content, delimiter, more);
    TooShort(delimiter, needle);
    TooShort("", needle);
    assert HeaderOf(p) == CRLF + header && "" + CRLF + header == CRLF + header && BLANK_LINE == CRLF + CRLF;
    assert PartBytes(p) + rest == CRLF + header + (CRLF + CRLF) + p.content + CRLF + rest;
    NotAcrossLines("", header, needle);
    NotAcrossLines(p.content, rest, needle);
    NotAcrossLines("", p.content + CRLF + rest, needle);
    NotAcrossLines(header, "" + CRLF + (p.content + CRLF + rest), needle);
    NotAcrossLines(delimiter, header + CRLF + ("" + CRLF + (p.content + CRLF + rest)), needle);
    PartInLines(delimiter, CRLF, header, p.content, rest);
  }

  lemma PartInLines(a: string, n: string, header: string, content: string, rest: string)
    ensures a + n + (header + n + ("" + n + (content + n + rest))) == a + ((n + header) + (n + n) + content + n + rest)
  {}

  /** The body up to its last delimiter. */
  function Before(delimiter: string, form: seq<Part>): string {
    if form == [] then "" else delimiter + PartBytes(form[0]) + Before(delimiter, form[1..])
  }

  lemma {:induction false} TailEnds(delimiter: string, form: seq<Part>)
    ensures delimiter + Tail(delimiter, form) == Before(delimiter, form) + (delimiter + CLOSING)
  {
    hide PartBytes;
    if form != [] {
      TailEnds(delimiter, form[1..]);
      assert delimiter + Tail(delimiter, form) == delimiter + PartBytes(form[0])
          + (delimiter + Tail(delimiter, form[1..]));
    } else {
      assert "" + (delimiter + CLOSING) == delimiter + CLOSING;
    }
  }

  lemma {:induction false} NothingBehindBoundary(delimiter: string, more: string, form: seq<Part>, rest: string)
    requires FormFits(form, delimiter) && more != "" && OnOneLine(delimiter + more)
    ensures Occurs(Before(delimiter, form) + rest, delimiter + more) <==> Occurs(rest, delimiter + more)
  {
    hide PartBytes, Fits, OnOneLine, FormFits, Occurs, Before;
    BeforeNext(delimiter, form, rest);
    if form != [] {
      FormFitsCons(form, delimiter);
      NothingBehindBoundary(delimiter, more, form[1..], rest);
      PartHasNoMore(form[0], delimiter, more, Before(delimiter, form[1..]) + rest);
    }
  }

  lemma BeforeNext(delimiter: string, form: seq<Part>, rest: string)
    ensures Before(delimiter, form) + rest
         == if form == [] then rest else delimiter + (PartBytes(form[0]) + (Before(delimiter, form[1..]) + rest))
  {
    hide PartBytes;
    if form != [] {
      JoinRight(delimiter + PartBytes(form[0]), Before(delimiter, form[1..]), rest);
      JoinRight(delimiter, PartBytes(form[0]), Before(delimiter, form[1..]) + rest);
    }
  }

  /** A longer delimiter is found at the last delimiter of the body, if at all. */
  lemma FoundLate(delimiter: string, more: string, form: seq<Part>)
    requires FormFits(form, delimiter) && more != "" && OnOneLine(delimiter + more)
    ensures var at := Find(Before(delimiter, form) + (delimiter + CLOSING), delimiter + more);
            at.Some? ==> |Before(delimiter, form)| <= at.value
  {
    hide Before, FormFits, OnOneLine, At;
    var x, y, needle := Before(delimiter, form), delimiter + CLOSING, delimiter + more;
    var at := Find(x + y, needle);
    if at.Some? && at.value < |x| {
      var cut := CutBehind(x, y, needle, at.value);
      TooShort(cut, needle);
      NothingBehindBoundary(delimiter, more, form, cut);
    }
  }

  /** What begins in `x` ends before much of `y` is needed. */
  lemma CutBehind(x: string, y: string, needle: string, i: nat) returns (cut: string)
    requires At(x + y, i, needle) && i < |x| && needle != ""
    ensures |cut| < |needle| && Occurs(x + cut, needle)
  {
    cut := if i + |needle| <= |x| then "" else y[..i + |needle| - |x|];
    assert (x + cut)[i..i + |needle|] == (x + y)[i..i + |needle|];
    OccursAt(x + cut, needle, i);
  }

  /** Pieces too short for a blank line hold no file. */
  lemma {:induction false} ShortPiecesHoldNoFile(s: string, needle: string)
    requires |s| < 4 && needle != ""
    ensures forall i :: 0 <= i < |Split(s, needle)| ==> |Split(s, needle)[i]| < 4
    decreases |s|
  {
    var at := Find(s, needle);
    if at.Some? {
      ShortPiecesHoldNoFile(s[at.value + |needle|..], needle);
    }
  }

  lemma {:induction false} NoFilesInShort(parts: seq<string>)
    requires forall i :: 0 <= i < |parts| ==> |parts[i]| < 4
    ensures FilesOf(parts) == []
  {
    if parts != [] {
      TooShort(parts[0], BLANK_LINE);
      hide At;
      NoFilesInShort(parts[1..]);
    }
  }

  lemma LateDelimiterHidesFiles(contentType: string, body: string)
    requires Boundary(contentType) != "" && StartsWith(body, "--")
    requires var at, needle := Find(body, "--" + Boundary(contentType)), "--" + Boundary(contentType);
             at.Some? ==> |body| - (at.value + |needle|) < 4
    ensures Files(contentType, body) == []
  {
    var needle := "--" + Boundary(contentType);
    if Occurs(body, needle) {
      var rest := body[Find(body, needle).value + |needle|..];
      SplitOpened(body, needle);
      ShortPiecesHoldNoFile(rest, needle);
      NoFilesInShort(Parts(body, needle));
    } else {
      WholeBodySkipped(contentType, body);
    }
  }

  lemma EncodeIs(boundary: string, form: seq<Part>)
    ensures Encode(boundary, form) == Before("--" + boundary, form) + ("--" + boundary + CLOSING)
    ensures StartsWith(Encode(boundary, form), "--")
  {
    hide Tail, Before;
    TailEnds("--" + boundary, form);
    assert "--" + boundary + Tail("--" + boundary, form) == ("--" + boundary) + Tail("--" + boundary, form);
  }

  /** What is written behind the boundary, as in `boundary=b; charset=utf-8`, is taken for part of it. The reader
      finds the files of the form exactly if nothing is, and else no file at all. */
  lemma BoundaryReadExactly(boundary: string, more: string, form: seq<Part>)
    requires BoundaryFits(boundary) && BoundaryFits(boundary + more) && FormFits(form, "--" + boundary)
    ensures Files(ContentType(boundary + more), Encode(boundary, form)) == if more == "" then FilesIn(form) else []
  {
    if more == "" {
      assert boundary + more == boundary;
      FilesRoundTrip(boundary, form);
    } else {
      hide Encode, ContentType, Boundary, Files, Before, FormFits, Occurs, FilesIn;
      var delimiter := "--" + boundary;
      assert delimiter + more == "--" + (boundary + more);
      assert OnOneLine(delimiter + more);
      EncodeIs(boundary, form);
      FoundLate(delimiter, more, form);
      BoundaryFound(boundary + more);
      hide OnOneLine;
      LateDelimiterHidesFiles(ContentType(boundary + more), Encode(boundary, form));
    }
  }
}
