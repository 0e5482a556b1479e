/** Base64 (RFC 4648 section 4) with an alphabet of its own. */
module ShuffledBase64 {
  import opened Bytes
  import Text

  const ROW_0 := "Dkdpgh2ZmsQB80/M"
  const ROW_1 := "fvV36XI1R45-WUAl"
  const ROW_2 := "EixNLwoqYTOPuzKF"
  const ROW_3 := "Jjnry79HbGcaStCe"
  const ALPHABET := ROW_0 + ROW_1 + ROW_2 + ROW_3 + "="

  /** The 24 bits of a group of up to three bytes. */
  function Bits(a: Byte, b: Byte, c: Byte): (n: int)
    ensures 0 <= n < 0x1000000
  {
    a * 0x10000 + b * 0x100 + c
  }

  /** Letter number 0 to 3 of a group. */
  function Letter(n: int, k: int): char
    requires 0 <= n < 0x1000000 && 0 <= k < 4
  {
    ALPHABET[Sextet(n, k)]
  }

  function Sextet(n: int, k: int): (d: int)
    requires 0 <= n < 0x1000000 && 0 <= k < 4
    ensures 0 <= d < 64
  {
    if k == 0 then n / 0x40000 else if k == 1 then n / 0x1000 % 64 else if k == 2 then n / 64 % 64 else n % 64
  }

  function Encode(data: seq<Byte>): string {
    if data == [] then ""
    else if |data| == 1 then
      var n := Bits(data[0], 0, 0);
      [Letter(n, 0), Letter(n, 1)] + "=="
    else if |data| == 2 then
      var n := Bits(data[0], data[1], 0);
      [Letter(n, 0), Letter(n, 1), Letter(n, 2)] + "="
    else
      var n := Bits(data[0], data[1], data[2]);
      [Letter(n, 0), Letter(n, 1), Letter(n, 2), Letter(n, 3)] + Encode(data[3..])
  }

  /** `n` padding characters. */
  function Padding(n: nat): string {
    if n == 0 then "" else Padding(n - 1) + "="
  }

  /** The letters of a group, before padding. */
  function Letters(chunk: seq<Byte>): (l: string)
    requires 1 <= |chunk| <= 3
    ensures |l| == |chunk| + 1
  {
    var n := Bits(chunk[0], if |chunk| > 1 then chunk[1] else 0, if |chunk| > 2 then chunk[2] else 0);
    if |chunk| == 1 then [Letter(n, 0), Letter(n, 1)]
    else if |chunk| == 2 then [Letter(n, 0), Letter(n, 1), Letter(n, 2)]
    else [Letter(n, 0), Letter(n, 1), Letter(n, 2), Letter(n, 3)]
  }

  function ChunkAt(data: seq<Byte>, at: nat): (chunk: seq<Byte>)
    requires at < |data|
    ensures |chunk| == if at + 3 <= |data| then 3 else |data| - at
  {
    data[at..if at + 3 <= |data| then at + 3 else |data|]
  }

  lemma GroupStep(data: seq<Byte>, at: nat)
    requires at < |data|
    ensures var chunk := ChunkAt(data, at);
            var next := at + |chunk|;
            Encode(data[at..])
              == Letters(chunk) + (if next < |data| then Encode(data[next..]) else Padding(3 - |chunk|))
  {
    hide Letter, Bits;
    var rest := data[at..];
    if |rest| >= 3 {
      assert rest[3..] == data[at + 3..];
    } else {
      assert Padding(1) == "=" && Padding(2) == "==";
    }
  }

  method PushGroup(before: string, chunk: seq<Byte>) returns (result: string)
    requires 1 <= |chunk| <= 3
    ensures result == before + Letters(chunk)
  {
    var n := Bits(chunk[0], if |chunk| > 1 then chunk[1] else 0, if |chunk| > 2 then chunk[2] else 0);
    hide Letter, Bits;
    result := before + [Letter(n, 0)];
    result := result + [Letter(n, 1)];
    if |chunk| > 1 {
      result := result + [Letter(n, 2)];
    }
    if |chunk| > 2 {
      result := result + [Letter(n, 3)];
    }
  }

  /** Padding characters for `len` bytes. */
  function Pads(len: nat): nat {
    (3 - len % 3) % 3
  }

  /** Padding characters for `written` letters. */
  function PadFor(written: nat): nat {
    (4 - written % 4) % 4
  }

  /** With `at` of `len` bytes done, `written` letters are whole groups, or all but the padding. */
  predicate InStep(written: nat, at: nat, len: nat) {
    at <= len && if at < len then at % 3 == 0 && written % 4 == 0 else written % 4 == (4 - Pads(len)) % 4
  }

  lemma StartInStep(len: nat)
    ensures InStep(0, 0, len)
  {}

  lemma StaysInStep(written: nat, at: nat, size: nat, len: nat)
    requires InStep(written, at, len) && at < len && size == if at + 3 <= len then 3 else len - at
    ensures InStep(written + size + 1, at + size, len)
    ensures at % 3 == 0 && (at + size >= len ==> 3 - size == Pads(len))
  {}

  lemma EndInStep(written: nat, len: nat)
    requires InStep(written, len, len)
    ensures PadFor(written) == Pads(len)
  {}

  /** The loop has written the letters of the first `at` bytes. */
  predicate Written(result: string, data: seq<Byte>, at: nat) {
    at <= |data| && InStep(|result|, at, |data|) && result + Remaining(data, at) == Encode(data)
  }

  lemma NothingWritten(data: seq<Byte>)
    ensures Written("", data, 0)
  {
    StartInStep(|data|);
    AllRemains(data);
    hide Remaining, Encode;
  }

  lemma ChunkWritten(result: string, data: seq<Byte>, at: nat)
    requires Written(result, data, at) && at < |data|
    ensures var chunk := ChunkAt(data, at);
            Written(result + Letters(chunk), data, at + |chunk|)
  {
    hide Letters, Remaining, ChunkAt, Encode, InStep;
    var chunk := ChunkAt(data, at);
    StaysInStep(|result|, at, |chunk|, |data|);
    RemainingStep(data, at);
    Text.JoinRight(result, Letters(chunk), Remaining(data, at + |chunk|));
  }

  lemma AllWritten(result: string, data: seq<Byte>)
    ensures Written(result, data, |data|) ==> result + Padding(PadFor(|result|)) == Encode(data)
  {
    if Written(result, data, |data|) {
      hide Encode, Remaining, Padding, PadFor, Pads, InStep;
      NothingRemains(data);
      EndInStep(|result|, |data|);
    }
  }

  method CustomB64Encode(data: seq<Byte>) returns (result: string)
    ensures result == Encode(data)
  {
    hide Written, Letters, Encode, ChunkAt, Padding;
    result := "";
    var at := 0;
    NothingWritten(data);
    while at < |data|
      invariant at <= |data| && Written(result, data, at)
    {
      var chunk := ChunkAt(data, at);
      ChunkWritten(result, data, at);
      result := PushGroup(result, chunk);
      at := at + |chunk|;
    }
    AllWritten(result, data);
    result := PadToFour(result);
  }

  method PadToFour(letters: string) returns (result: string)
    ensures result == letters + Padding(PadFor(|letters|))
  {
    result := letters;
    var pad := (4 - |result| % 4) % 4;
    for k := 0 to pad
      invariant result == letters + Padding(k)
    {
      result := result + "=";
    }
  }

  lemma AllRemains(data: seq<Byte>)
    ensures Remaining(data, 0) == Encode(data)
  {
    assert data[0..] == data;
    assert data == [] ==> Padding(0) == "";
    hide Letter;
  }

  lemma NothingRemains(data: seq<Byte>)
    ensures Remaining(data, |data|) == Padding(Pads(|data|))
  {}

  lemma RemainingStep(data: seq<Byte>, at: nat)
    requires at < |data| && at % 3 == 0
    ensures var chunk := ChunkAt(data, at);
            Remaining(data, at) == Letters(chunk) + Remaining(data, at + |chunk|)
  {
    hide Letters, Encode;
    GroupStep(data, at);
    var chunk := ChunkAt(data, at);
    StaysInStep(0, at, |chunk|, |data|);
  }

  /** What the loop has still to add when `at` bytes are done. */
  function Remaining(data: seq<Byte>, at: nat): string
    requires at <= |data|
  {
    if at < |data| then Encode(data[at..]) else Padding(Pads(|data|))
  }

  /** A decoder: groups of four letters, `=` for what a short group lacks. */
  function Value(c: char): int {
    match c
    case 'D' => 0 case 'k' => 1 case 'd' => 2 case 'p' => 3
    case 'g' => 4 case 'h' => 5 case '2' => 6 case 'Z' => 7
    case 'm' => 8 case 's' => 9 case 'Q' => 10 case 'B' => 11
    case '8' => 12 case '0' => 13 case '/' => 14 case 'M' => 15
    case 'f' => 16 case 'v' => 17 case 'V' => 18 case '3' => 19
    case '6' => 20 case 'X' => 21 case 'I' => 22 case '1' => 23
    case 'R' => 24 case '4' => 25 case '5' => 26 case '-' => 27
    case 'W' => 28 case 'U' => 29 case 'A' => 30 case 'l' => 31
    case 'E' => 32 case 'i' => 33 case 'x' => 34 case 'N' => 35
    case 'L' => 36 case 'w' => 37 case 'o' => 38 case 'q' => 39
    case 'Y' => 40 case 'T' => 41 case 'O' => 42 case 'P' => 43
    case 'u' => 44 case 'z' => 45 case 'K' => 46 case 'F' => 47
    case 'J' => 48 case 'j' => 49 case 'n' => 50 case 'r' => 51
    case 'y' => 52 case '7' => 53 case '9' => 54 case 'H' => 55
    case 'b' => 56 case 'G' => 57 case 'c' => 58 case 'a' => 59
    case 'S' => 60 case 't' => 61 case 'C' => 62 case 'e' => 63
    case _ => 0
  }

  function Group(a: char, b: char, c: char, d: char): seq<Byte> {
    var n := Value(a) * 0x40000 + Value(b) * 0x1000 + Value(c) * 64 + Value(d);
    if c == '=' then [n / 0x10000 % 256]
    else if d == '=' then [n / 0x10000 % 256, n / 0x100 % 256]
    else [n / 0x10000 % 256, n / 0x100 % 256, n % 256]
  }

  function Decode(text: string): seq<Byte> {
    if |text| < 4 then [] else Group(text[0], text[1], text[2], text[3]) + Decode(text[4..])
  }

  // The decoder undoes the encoder

  lemma ValuesInRow0(i: int)
    requires 0 <= i < 16
    ensures ROW_0[i] != '=' && Value(ROW_0[i]) == i
  {
    assert i in {0, 1, 2, 3, 4, 5, 6, 7, 8, 9, 10, 11, 12, 13, 14, 15};
  }

  lemma ValuesInRow1(i: int)
    requires 0 <= i < 16
    ensures ROW_1[i] != '=' && Value(ROW_1[i]) == 16 + i
  {
    assert i in {0, 1, 2, 3, 4, 5, 6, 7, 8, 9, 10, 11, 12, 13, 14, 15};
  }

  lemma ValuesInRow2(i: int)
    requires 0 <= i < 16
    ensures ROW_2[i] != '=' && Value(ROW_2[i]) == 32 + i
  {
    if i < 4 {
      assert i in {0, 1, 2, 3};
    } else if i < 8 {
      assert i in {4, 5, 6, 7};
    } else if i < 12 {
      assert i in {8, 9, 10, 11};
    } else {
      assert i in {12, 13, 14, 15};
    }
  }

  lemma ValuesInRow3Low(i: int)
    requires 0 <= i < 8
    ensures ROW_3[i] != '=' && Value(ROW_3[i]) == 48 + i
  {
    assert i in {0, 1, 2, 3, 4, 5, 6, 7};
  }

  lemma ValuesInRow3High(i: int)
    requires 8 <= i < 16
    ensures ROW_3[i] != '=' && Value(ROW_3[i]) == 48 + i
  {
    assert i in {8, 9, 10, 11, 12, 13, 14, 15};
  }

  lemma RowOf(a: string, b: string, c: string, d: string, e: string, i: int)
    requires |a| == |b| == |c| == |d| == 16 && 0 <= i < 64
    ensures i / 16 == 0 ==> (a + b + c + d + e)[i] == a[i % 16]
    ensures i / 16 == 1 ==> (a + b + c + d + e)[i] == b[i % 16]
    ensures i / 16 == 2 ==> (a + b + c + d + e)[i] == c[i % 16]
    ensures i / 16 == 3 ==> (a + b + c + d + e)[i] == d[i % 16]
  {}

  lemma RowLengths()
    ensures |ROW_0| == |ROW_1| == |ROW_2| == |ROW_3| == 16
  {}

  /** The 64 letters are distinct: each gives its own number back, and none is the padding. */
  lemma ValueOfLetter(i: int)
    requires 0 <= i < 64
    ensures ALPHABET[i] != '=' && Value(ALPHABET[i]) == i
  {
    hide Value;
    RowLengths();
    RowOf(ROW_0, ROW_1, ROW_2, ROW_3, "=", i);
    if i / 16 == 0 {
      ValuesInRow0(i % 16);
    } else if i / 16 == 1 {
      ValuesInRow1(i % 16);
    } else if i / 16 == 2 {
      ValuesInRow2(i % 16);
    } else {
      if i % 16 < 8 {
        ValuesInRow3Low(i % 16);
      } else {
        ValuesInRow3High(i % 16);
      }
    }
  }

  lemma LetterBack(n: int, k: int)
    requires 0 <= n < 0x1000000 && 0 <= k < 4
    ensures Letter(n, k) != '=' && Value(Letter(n, k)) == Sextet(n, k)
  {
    ValueOfLetter(Sextet(n, k));
    hide Value, Sextet;
  }

  lemma SextetsMakeBits(n: int)
    requires 0 <= n < 0x1000000
    ensures Sextet(n, 0) * 0x40000 + Sextet(n, 1) * 0x1000 + Sextet(n, 2) * 64 + Sextet(n, 3) == n
    ensures n % 64 == 0 ==> Sextet(n, 3) == 0
    ensures n % 0x1000 == 0 ==> Sextet(n, 2) == 0
  {
    var a := n / 64;
    var b := a / 64;
    assert n / 0x1000 == b && n / 0x40000 == b / 64;
  }

  lemma BytesOfBits(a: Byte, b: Byte, c: Byte)
    ensures 0 <= Bits(a, b, c) < 0x1000000
    ensures Bits(a, b, c) / 0x10000 % 256 == a && Bits(a, b, c) / 0x100 % 256 == b && Bits(a, b, c) % 256 == c
  {
    assert Bits(a, b, c) / 0x100 == a * 0x100 + b;
  }

  lemma PaddingIsZero()
    ensures Value('=') == 0
  {}

  lemma ThreeBack(n: int)
    requires 0 <= n < 0x1000000
    ensures Group(Letter(n, 0), Letter(n, 1), Letter(n, 2), Letter(n, 3))
         == [n / 0x10000 % 256, n / 0x100 % 256, n % 256]
  {
    hide Letter, Sextet, Value;
    SextetsMakeBits(n);
    LetterBack(n, 0);
    LetterBack(n, 1);
    LetterBack(n, 2);
    LetterBack(n, 3);
  }

  lemma TwoBack(n: int)
    requires 0 <= n < 0x1000000 && n % 64 == 0
    ensures Group(Letter(n, 0), Letter(n, 1), Letter(n, 2), '=') == [n / 0x10000 % 256, n / 0x100 % 256]
  {
    hide Letter, Sextet, Value;
    SextetsMakeBits(n);
    LetterBack(n, 0);
    LetterBack(n, 1);
    LetterBack(n, 2);
    PaddingIsZero();
  }

  lemma OneBack(n: int)
    requires 0 <= n < 0x1000000 && n % 0x1000 == 0
    ensures Group(Letter(n, 0), Letter(n, 1), '=', '=') == [n / 0x10000 % 256]
  {
    hide Letter, Sextet, Value;
    SextetsMakeBits(n);
    assert n % 64 == 0;
    LetterBack(n, 0);
    LetterBack(n, 1);
    PaddingIsZero();
  }

  lemma LowBitsZero(a: Byte, b: Byte)
    ensures Bits(a, b, 0) % 64 == 0 && Bits(a, 0, 0) % 0x1000 == 0
  {}

  lemma Paddings()
    ensures Padding(0) == "" && Padding(1) == "=" && Padding(2) == "=="
  {}

  lemma GroupBack(chunk: seq<Byte>, text: string)
    requires 1 <= |chunk| <= 3 && text == Letters(chunk) + Padding(3 - |chunk|)
    ensures |text| == 4 && Group(text[0], text[1], text[2], text[3]) == chunk
  {
    hide Letter, Group, Bits, Padding;
    var b, c := if |chunk| > 1 then chunk[1] else 0, if |chunk| > 2 then chunk[2] else 0;
    var n := Bits(chunk[0], b, c);
    BytesOfBits(chunk[0], b, c);
    LowBitsZero(chunk[0], b);
    Paddings();
    if |chunk| == 1 {
      OneBack(n);
    } else if |chunk| == 2 {
      TwoBack(n);
    } else {
      ThreeBack(n);
    }
  }

  lemma DecodeStep(group: string, rest: string)
    requires |group| == 4
    ensures Decode(group + rest) == Group(group[0], group[1], group[2], group[3]) + Decode(rest)
  {
    assert (group + rest)[4..] == rest;
    hide Group;
  }

  lemma GroupEncoded(data: seq<Byte>)
    requires data != []
    ensures var chunk := ChunkAt(data, 0);
            var group := Letters(chunk) + Padding(3 - |chunk|);
            data == chunk + data[|chunk|..] && Encode(data) == group + Encode(data[|chunk|..])
  {
    hide Letters, Encode, Padding;
    assert data[0..] == data;
    Paddings();
    NothingEncoded();
    GroupStep(data, 0);
    var chunk := ChunkAt(data, 0);
    if |chunk| == |data| {
      assert data[|chunk|..] == [];
    }
  }

  /** The decoder is a left inverse of the encoder, and the length is four for every three begun bytes. */
  lemma {:induction false} DecodeEncode(data: seq<Byte>)
    ensures Decode(Encode(data)) == data
    ensures |Encode(data)| == 4 * ((|data| + 2) / 3)
    decreases |data|
  {
    hide Letters, Group, Encode, Decode, Padding;
    if data == [] {
      NothingEncoded();
    } else {
      var chunk := ChunkAt(data, 0);
      var text, rest := Letters(chunk) + Padding(3 - |chunk|), data[|chunk|..];
      GroupEncoded(data);
      GroupBack(chunk, text);
      DecodeEncode(rest);
      DecodeStep(text, Encode(rest));
    }
  }

  lemma NothingEncoded()
    ensures Encode([]) == "" && Decode("") == []
  {}
}
