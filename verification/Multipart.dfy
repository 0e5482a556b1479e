/** The two hand-written readers of multipart/form-data bodies (RFC 7578, RFC 2046 section 5.1.1): one
    takes the files out, the other the text fields. */
module Multipart {
  import opened Text
  import opened Wrappers

  datatype File = File(filename: string, contentType: string, data: string)

  const CRLF := "\r\n"
  const BLANK_LINE := "\r\n\r\n"
  const QUOTE := "\""
  const FILENAME_IS := "filename=\""
  const NAME_IS := "name=\""
  const CONTENT_TYPE_IS := "content-type:"
  const OCTETS := "application/octet-stream"

  /** Everything after the first `boundary=`, trimmed; quotes and later parameters stay. */
  function Boundary(contentType: string): string {
    var parts := Split(contentType, "boundary=");
    Trim(if |parts| > 1 then parts[1] else "")
  }

  // The file reader

  /** The value between two markers. */
  function HeaderValue(header: string, start: string, end: string): Option<string> {
    var from := Find(header, start);
    if from.None? then None
    else
      var rest := header[from.value + |start|..];
      var to := Find(rest, end);
      if to.None? then None else Some(rest[..to.value])
  }

  function AfterColon(line: string): string {
    var at := Find(line, ":");
    if at.Some? then line[at.value + 1..] else ""
  }

  function FirstContentType(lines: seq<string>): string {
    if lines == [] then OCTETS
    else if StartsWith(Lower(lines[0]), CONTENT_TYPE_IS) then Trim(AfterColon(lines[0]))
    else FirstContentType(lines[1..])
  }

  function FileWith(header: string, data: string): Option<File> {
    var filename := HeaderValue(header, FILENAME_IS, QUOTE);
    if filename.None? || filename.value == "" then None
    else Some(File(filename.value, FirstContentType(Lines(header)), data))
  }

  function FileOf(part: string): Option<File> {
    var headerEnd := Find(part, BLANK_LINE);
    if StartsWith(part, "--") || headerEnd.None? then None
    else FileWith(part[..headerEnd.value], StripSuffix(part[headerEnd.value + 4..], CRLF))
  }

  function FilesOf(parts: seq<string>): seq<File> {
    if parts == [] then []
    else
      var file := FileOf(parts[0]);
      (if file.Some? then [file.value] else []) + FilesOf(parts[1..])
  }

  /** What the file reader takes for parts: what follows each delimiter. Without any delimiter it is the
      whole body; an empty last part is dropped. */
  function Parts(body: string, delimiter: string): seq<string>
    requires delimiter != ""
  {
    var all := Split(body, delimiter);
    var parts := if |all| > 1 then all[1..] else all;
    if parts[|parts| - 1] == "" then parts[..|parts| - 1] else parts
  }

  function Files(contentType: string, body: string): seq<File> {
    var boundary := Boundary(contentType);
    if boundary == "" then [] else FilesOf(Parts(body, "--" + boundary))
  }

  lemma RestOfRest(s: string, i: nat, n: nat, m: nat)
    requires i + n + m <= |s|
    ensures s[i..][..n] == s[i..i + n] && s[i..][n + m..] == s[i + n + m..]
  {}

  lemma SplitOpened(s: string, needle: string)
    requires needle != "" && Occurs(s, needle)
    ensures var n := Find(s, needle).value;
            n + |needle| <= |s| && Split(s, needle) == [s[..n]] + Split(s[n + |needle|..], needle)
  {}

  lemma LastPart(body: string, delimiter: string, parts: seq<string>, start: nat)
    requires delimiter != "" && start <= |body| && !Occurs(body[start..], delimiter)
    requires if start == 0 then parts == []
             else |Split(body, delimiter)| > 1 && parts + Split(body[start..], delimiter) == Split(body, delimiter)[1..]
    ensures Parts(body, delimiter) == if start < |body| then parts + [body[start..]] else parts
  {
    var last := body[start..];
    assert Split(last, delimiter) == [last];
    if start == 0 {
      assert last == body;
    }
    hide Split;
  }

  /** The first loop of the file reader. */
  method CutAtDelimiters(body: string, delimiter: string) returns (parts: seq<string>)
    requires delimiter != ""
    ensures parts == Parts(body, delimiter)
  {
    hide Parts, Split, Find, At;
    parts := [];
    var start := 0;
    var pos := Find(body, delimiter);
    assert body[0..] == body;
    while pos.Some?
      invariant 0 <= start <= |body|
      invariant pos == Find(body[start..], delimiter)
      invariant if start == 0 then parts == []
                else |Split(body, delimiter)| > 1
                     && parts + Split(body[start..], delimiter) == Split(body, delimiter)[1..]
      decreases |body| - start
    {
      var at := start + pos.value;
      SplitOpened(body[start..], delimiter);
      RestOfRest(body, start, pos.value, |delimiter|);
      if start > 0 {
        parts := parts + [body[start..at]];
      }
      start := at + |delimiter|;
      pos := Find(body[start..], delimiter);
    }
    LastPart(body, delimiter, parts, start);
    if start < |body| {
      parts := parts + [body[start..]];
    }
  }

  method ExtractMultipartFiles(contentType: string, body: string) returns (files: seq<File>)
    ensures files == Files(contentType, body)
  {
    var boundary := Boundary(contentType);
    if boundary == "" {
      return [];
    }
    var parts := CutAtDelimiters(body, "--" + boundary);
    files := [];
    var i := 0;
    while i < |parts|
      invariant 0 <= i <= |parts|
      invariant files + FilesOf(parts[i..]) == FilesOf(parts)
    {
      var part := parts[i];
      FilesOfStep(files, parts, i);
      hide FilesOf, HeaderValue, FirstContentType, Lines, StripSuffix, StartsWith;
      i := i + 1;
      if StartsWith(part, "--") {
        continue;
      }
      var headerEnd := Find(part, BLANK_LINE);
      if headerEnd.None? {
        continue;
      }
      var header := part[..headerEnd.value];
      var data := StripSuffix(part[headerEnd.value + 4..], CRLF);
      var filename := HeaderValue(header, FILENAME_IS, QUOTE);
      if filename.None? || filename.value == "" {
        continue;
      }
      files := files + [File(filename.value, FirstContentType(Lines(header)), data)];
    }
  }

  lemma FilesOfStep(files: seq<File>, parts: seq<string>, i: nat)
    requires i < |parts|
    ensures var file := FileOf(parts[i]);
            files + FilesOf(parts[i..])
            == (if file.Some? then files + [file.value] else files) + FilesOf(parts[i + 1..])
  {
    assert parts[i..][1..] == parts[i + 1..];
  }

  // The field reader

  datatype Fields = Fields(
    prompt: string, model: Option<string>, duration: Option<int>, ratio: Option<string>,
    resolution: Option<string>, webhookUrl: Option<string>)

  const NO_FIELDS := Fields("", None, None, None, None, None)

  function Decimal(s: string): Option<nat> {
    if s == "" then Some(0)
    else
      var before := Decimal(s[..|s| - 1]);
      var c := s[|s| - 1];
      if IsDigit(c) && before.Some? then Some(10 * before.value + (c as int - '0' as int)) else None
  }

  /** `str::parse::<i32>`: an optional sign, at least one digit, and a value that fits. */
  function ParseI32(s: string): Option<int> {
    var digits := if s != "" && (s[0] == '+' || s[0] == '-') then s[1..] else s;
    var n := Decimal(digits);
    if digits == "" || n.None? then None
    else
      var value: int := if s[0] == '-' then 0 - (n.value as int) else n.value;
      if -0x8000_0000 <= value < 0x8000_0000 then Some(value) else None
  }

  lemma {:induction false} DecimalOfDigits(n: nat)
    ensures Decimal(Digits(n)) == Some(n)
  {
    if n >= 10 {
      LastDigit(n);
      DecimalOfDigits(n / 10);
    } else {
      assert Digits(n)[..0] == "" && Decimal("") == Some(0);
    }
  }

  function Printed(n: int): string {
    if n < 0 then "-" + Digits(-n) else Digits(n)
  }

  /** Every i32 is read back from its decimal form, and no other number is read at all. */
  lemma ParseReadsDecimals(n: int)
    ensures ParseI32(Printed(n)) == if -0x8000_0000 <= n < 0x8000_0000 then Some(n) else None
  {
    hide Decimal, Digits;
    var digits := Digits(if n < 0 then -n else n);
    DecimalOfDigits(if n < 0 then -n else n);
    if n < 0 {
      assert Printed(n)[0] == '-' && Printed(n)[1..] == digits;
    } else {
      assert Printed(n)[0] != '-' && Printed(n)[0] != '+';
    }
  }

  lemma {:induction false} DecimalsAreDigits(s: string)
    requires Decimal(s).Some?
    ensures forall k :: 0 <= k < |s| ==> IsDigit(s[k])
  {
    if s != "" {
      DecimalsAreDigits(s[..|s| - 1]);
      assert forall k :: 0 <= k < |s| - 1 ==> s[k] == s[..|s| - 1][k];
    }
  }

  /** Nothing but digits behind an optional sign is read, and at least one digit; a plus sign makes no
      difference. */
  lemma OnlyNumbersAreRead(s: string)
    ensures ParseI32(s).Some? ==>
      var digits := if s != "" && (s[0] == '+' || s[0] == '-') then s[1..] else s;
      digits != "" && forall k :: 0 <= k < |digits| ==> IsDigit(digits[k])
    ensures s != "" && IsDigit(s[0]) ==> ParseI32("+" + s) == ParseI32(s)
  {
    var digits := if s != "" && (s[0] == '+' || s[0] == '-') then s[1..] else s;
    if Decimal(digits).Some? {
      DecimalsAreDigits(digits);
    }
    assert ("+" + s)[1..] == s;
    hide Decimal;
  }

  function WithField(f: Fields, name: string, value: string): Fields {
    match name
    case "prompt" => f.(prompt := value)
    case "model" => f.(model := Some(value))
    case "duration" => f.(duration := ParseI32(value))
    case "ratio" => f.(ratio := Some(value))
    case "resolution" => f.(resolution := Some(value))
    case "webhook_url" => f.(webhookUrl := Some(value))
    case _ => f
  }

  datatype Field = Field(name: string, value: string)

  function FieldOf(part: string): Option<Field> {
    var name := HeaderValue(part, NAME_IS, QUOTE);
    var valueStart := Find(part, BLANK_LINE);
    if name.None? || Occurs(part, FILENAME_IS) || valueStart.None? then None
    else Some(Field(name.value, Trim(TrimEndMatches(part[valueStart.value + 4..], CRLF))))
  }

  function FieldsOf(f: Fields, parts: seq<string>): Fields
    decreases |parts|
  {
    if parts == [] then f
    else
      var field := FieldOf(parts[0]);
      FieldsOf(if field.Some? then WithField(f, field.value.name, field.value.value) else f, parts[1..])
  }

  function FormFields(contentType: string, body: string): Fields {
    var boundary := Boundary(contentType);
    if boundary == "" then NO_FIELDS else FieldsOf(NO_FIELDS, Split(body, "--" + boundary))
  }

  method ExtractMultipartFields(contentType: string, body: string) returns (fields: Fields)
    ensures fields == FormFields(contentType, body)
  {
    var boundary := Boundary(contentType);
    fields := NO_FIELDS;
    if boundary == "" {
      return;
    }
    var pieces := Split(body, "--" + boundary);
    var i := 0;
    while i < |pieces|
      invariant 0 <= i <= |pieces|
      invariant FieldsOf(fields, pieces[i..]) == FieldsOf(NO_FIELDS, pieces)
    {
      var part := pieces[i];
      FieldsOfStep(fields, pieces, i);
      hide FieldsOf, WithField, Trim, TrimEndMatches, Split;
      i := i + 1;
      var nameStart := Find(part, NAME_IS);
      if nameStart.Some? {
        var rest := part[nameStart.value + 6..];
        var nameEnd := Find(rest, QUOTE);
        if nameEnd.Some? {
          var name := rest[..nameEnd.value];
          if Occurs(part, FILENAME_IS) {
            continue;
          }
          var valueStart := Find(part, BLANK_LINE);
          if valueStart.Some? {
            var value := Trim(TrimEndMatches(part[valueStart.value + 4..], CRLF));
            fields := WithField(fields, name, value);
          }
        }
      }
    }
  }

  lemma FieldsOfStep(f: Fields, parts: seq<string>, i: nat)
    requires i < |parts|
    ensures var field := FieldOf(parts[i]);
            FieldsOf(f, parts[i..]) ==
            FieldsOf(if field.Some? then WithField(f, field.value.name, field.value.value) else f, parts[i + 1..])
  {
    assert parts[i..][1..] == parts[i + 1..];
  }
}
