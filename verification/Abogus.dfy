/** The request signature: a 44-byte structure with a fingerprint and a checksum, RC4-encrypted behind a
    nonce, in base64. */
module Abogus {
  import opened Bytes
  import opened ShuffledBase64
  import opened StreamCipher
  import opened Rc4Trace

  const KEY: seq<Byte> := [121]  // "y"
  const NONCE_LENGTH := 12

  function Low(n: nat): Byte {
    n % 256
  }

  /** The 44 bytes; the three hashes are SM3 digests, the times are milliseconds in 64 bits. */
  function BuildList4(end: nat, start: nat, params: seq<Byte>, verb: seq<Byte>, agent: seq<Byte>, browserLength: Byte)
    : (list: seq<Byte>)
    requires |params| == |verb| == |agent| == 32
    ensures |list| == 44
  {
    [44, Low(end / 0x1000000), 0, 0, 0, 0, 24, params[21], verb[21], 0, agent[23]]
    + [Low(end / 0x10000), 0, 0, 0, 1, 0, 239, params[22], verb[22], agent[24], Low(end / 0x100)]
    + [0, 0, 0, 0, Low(end), 0, 0, 14, Low(start / 0x1000000), Low(start / 0x10000), 0]
    + [Low(start / 0x100), Low(start), 3, 0, 1, 0, 1, browserLength, 0, 0, 0]
  }

  /** The places that always hold 0; 36 and 38 are commented as the high halves of the times. */
  const ZEROES: set<nat> := {2, 3, 4, 5, 9, 12, 13, 14, 16, 22, 23, 24, 25, 27, 28, 32, 36, 38, 41, 42, 43}

  lemma ListReads(end: nat, start: nat, params: seq<Byte>, verb: seq<Byte>, agent: seq<Byte>, browserLength: Byte)
    requires |params| == |verb| == |agent| == 32
    ensures var l := BuildList4(end, start, params, verb, agent, browserLength);
            && l[1] == Low(end / 0x1000000) && l[11] == Low(end / 0x10000)
            && l[21] == Low(end / 0x100) && l[26] == Low(end)
            && l[30] == Low(start / 0x1000000) && l[31] == Low(start / 0x10000)
            && l[33] == Low(start / 0x100) && l[34] == Low(start)
            && l[7] == params[21] && l[18] == params[22] && l[8] == verb[21] && l[19] == verb[22]
            && l[10] == agent[23] && l[20] == agent[24] && l[40] == browserLength
            && l[0] == 44 && l[6] == 24 && l[15] == 1 && l[17] == 239 && l[29] == 14
            && l[35] == 3 && l[37] == 1 && l[39] == 1 && forall k :: k in ZEROES ==> l[k] == 0
  {
    hide Low;
  }

  /** XOR of all bytes, starting from `acc`. */
  function XorAll(acc: Byte, list: seq<Byte>): Byte
    decreases |list|
  {
    if list == [] then acc else XorAll(Xor(acc, list[0]), list[1..])
  }

  function Plaintext(list4: seq<Byte>, browser: seq<Byte>): seq<Byte> {
    list4 + browser + [XorAll(0, list4)]
  }

  function Signature(nonce: seq<Byte>, plaintext: seq<Byte>): string {
    Encode(nonce + Rc4(plaintext, KEY))
  }

  /** `generate` up to the final URL encoding. Clock, hashes and nonce are given. */
  method Generate(end: nat, start: nat, params: seq<Byte>, verb: seq<Byte>, agent: seq<Byte>,
                  browser: seq<Byte>, nonce: seq<Byte>) returns (signature: string)
    requires |params| == |verb| == |agent| == 32 && |nonce| == NONCE_LENGTH
    ensures signature
         == Signature(nonce, Plaintext(BuildList4(end, start, params, verb, agent, Low(|browser|)), browser))
  {
    hide BuildList4, Xor, Rc4, Encode;
    var list4 := BuildList4(end, start, params, verb, agent, Low(|browser|));
    var checksum: Byte := 0;
    assert list4[0..] == list4;
    for i := 0 to |list4|
      invariant XorAll(checksum, list4[i..]) == XorAll(0, list4)
    {
      assert list4[i..][1..] == list4[i + 1..];
      checksum := Xor(checksum, list4[i]);
    }
    assert list4[|list4|..] == [];
    var plaintext := list4 + browser;
    plaintext := plaintext + [checksum];
    var encrypted := EncryptRc4(plaintext, KEY);
    signature := CustomB64Encode(nonce + encrypted);
  }

  /** Whoever knows the scheme gets the plaintext back: decode, drop the nonce, decrypt. */
  lemma SignatureOpens(nonce: seq<Byte>, plaintext: seq<Byte>)
    requires |nonce| == NONCE_LENGTH
    ensures var bytes := Decode(Signature(nonce, plaintext));
            && |bytes| == 12 + |plaintext| && bytes[..12] == nonce && Rc4(bytes[12..], ['y' as int]) == plaintext
    ensures |Signature(nonce, plaintext)| == 4 * ((NONCE_LENGTH + |plaintext| + 2) / 3)
  {
    var encrypted := Rc4(plaintext, KEY);
    assert |encrypted| == |plaintext|;
    hide Rc4, Decode, Encode;
    DecodeEncode(nonce + encrypted);
    assert (nonce + encrypted)[12..] == encrypted && (nonce + encrypted)[..12] == nonce;
    assert KEY == ['y' as int];
    Rc4Inverts(plaintext, KEY);
  }

  function FourBytes(a: Byte, b: Byte, c: Byte, d: Byte): nat {
    a * 0x1000000 + b * 0x10000 + c * 0x100 + d
  }

  lemma DivideTwice(n: nat)
    ensures n / 0x10000 == n / 256 / 256
  {}

  lemma DivideThrice(n: nat)
    ensures n / 0x1000000 == n / 256 / 256 / 256
  {}

  lemma Remainder(n: nat, q: nat, r: nat)
    requires n == 0x1_0000_0000 * q + r && r < 0x1_0000_0000
    ensures n % 0x1_0000_0000 == r
  {}

  lemma LowFourBytes(n: nat)
    ensures FourBytes(Low(n / 0x1000000), Low(n / 0x10000), Low(n / 0x100), Low(n)) == n % 0x1_0000_0000
  {
    var a := n / 256;
    var b := a / 256;
    var c := b / 256;
    DivideTwice(n);
    DivideThrice(n);
    Remainder(n, c / 256, FourBytes(Low(c), Low(b), Low(a), Low(n)));
  }

  lemma PlainReads(list4: seq<Byte>, browser: seq<Byte>)
    requires |list4| == 44
    ensures var p := Plaintext(list4, browser);
            && |p| == 45 + |browser| && p[..44] == list4 && p[44..|p| - 1] == browser && p[|p| - 1] == XorAll(0, list4)
            && forall k :: 0 <= k < 44 ==> p[k] == list4[k]
  {
    hide XorAll;
  }

  /** The decrypted structure, byte by byte: the low 32 bits of both times, the hash bytes, the fixed bytes, the
      zeroes, the fingerprint, and a checksum that fits the first 44 bytes. */
  ghost predicate Structured(p: seq<Byte>, end: nat, start: nat, params: seq<Byte>, verb: seq<Byte>,
                             agent: seq<Byte>, browser: seq<Byte>)
    requires |params| == |verb| == |agent| == 32
  {
    && |p| == 45 + |browser|
    && FourBytes(p[1], p[11], p[21], p[26]) == end % 0x1_0000_0000
    && FourBytes(p[30], p[31], p[33], p[34]) == start % 0x1_0000_0000
    && p[7] == params[21] && p[18] == params[22] && p[8] == verb[21] && p[19] == verb[22]
    && p[10] == agent[23] && p[20] == agent[24]
    && p[40] == |browser| % 256
    && p[0] == 44 && p[6] == 24 && p[15] == 1 && p[17] == 239 && p[29] == 14
    && p[35] == 3 && p[37] == 1 && p[39] == 1 && (forall k :: k in ZEROES ==> k < 44 && p[k] == 0)
    && p[44..|p| - 1] == browser
    && XorAll(0, p[..44]) == p[|p| - 1]
  }

  lemma PlaintextIsStructured(end: nat, start: nat, params: seq<Byte>, verb: seq<Byte>, agent: seq<Byte>,
                              browser: seq<Byte>)
    requires |params| == |verb| == |agent| == 32
    ensures Structured(Plaintext(BuildList4(end, start, params, verb, agent, Low(|browser|)), browser),
                       end, start, params, verb, agent, browser)
  {
    hide XorAll, FourBytes, BuildList4, Plaintext;
    var list4 := BuildList4(end, start, params, verb, agent, Low(|browser|));
    ListReads(end, start, params, verb, agent, Low(|browser|));
    PlainReads(list4, browser);
    LowFourBytes(end);
    LowFourBytes(start);
    assert forall k :: k in ZEROES ==> k < 44;
  }

  /** Every byte of the structure can be read off a signature with the key "y". */
  lemma SignatureReads(end: nat, start: nat, params: seq<Byte>, verb: seq<Byte>, agent: seq<Byte>,
                       browser: seq<Byte>, nonce: seq<Byte>)
    requires |params| == |verb| == |agent| == 32 && |nonce| == NONCE_LENGTH
    ensures var list4 := BuildList4(end, start, params, verb, agent, Low(|browser|));
            var bytes := Decode(Signature(nonce, Plaintext(list4, browser)));
            |bytes| >= 12 && Structured(Rc4(bytes[12..], ['y' as int]), end, start, params, verb, agent, browser)
  {
    hide Rc4, Decode, Signature, BuildList4, Plaintext, Structured;
    PlaintextIsStructured(end, start, params, verb, agent, browser);
    SignatureOpens(nonce, Plaintext(BuildList4(end, start, params, verb, agent, Low(|browser|)), browser));
  }

  // The checksum

  lemma {:induction false} XorAllInjective(a: Byte, b: Byte, list: seq<Byte>)
    ensures XorAll(a, list) == XorAll(b, list) <==> a == b
    decreases |list|
  {
    hide Xor;
    if list != [] {
      XorCancels(a, list[0]);
      XorCancels(b, list[0]);
      XorAllInjective(Xor(a, list[0]), Xor(b, list[0]), list[1..]);
    }
  }

  /** Changing any one of the 44 bytes changes the checksum. */
  lemma {:induction false} ChecksumSeesOneByte(acc: Byte, list: seq<Byte>, i: nat, b: Byte)
    requires i < |list|
    ensures XorAll(acc, list[i := b]) == XorAll(acc, list) <==> b == list[i]
    decreases |list|
  {
    hide Xor;
    var changed := list[i := b];
    if i == 0 {
      assert changed[1..] == list[1..];
      XorAllInjective(Xor(acc, list[0]), Xor(acc, b), list[1..]);
      XorCommutes(acc, list[0]);
      XorCommutes(acc, b);
      XorCancels(list[0], acc);
      XorCancels(b, acc);
    } else {
      assert changed[1..] == list[1..][i - 1 := b];
      ChecksumSeesOneByte(Xor(acc, list[0]), list[1..], i - 1, b);
    }
  }
}
