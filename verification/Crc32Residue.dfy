/** Which CRC this is: its check value, and what a message followed by its own checksum leaves. */
module Crc32Residue {
  import opened Crc32

  // The check value

  /** "123456789" in ASCII. */
  const DIGITS: seq<bv8> := [0x31, 0x32, 0x33, 0x34, 0x35, 0x36, 0x37, 0x38, 0x39]

  /** The register before each of its bytes, and after the last. */
  const STATES: seq<bv32> := [
    0xFFFFFFFF, 0x7C231048, 0xB0ACBB32, 0x77B79C2D, 0x641C1F5C,
    0x340AC5E3, 0xF68D2C9E, 0xAFFC9660, 0x651F2550, 0x340BC6D9]

  lemma Step1()
    ensures Shifts(Xor(Register(0xFFFFFFFF), Place(0x31, 0)), 8) == Register(0x7C231048)
  {
    assert Xor(Register(0xFFFFFFFF), Place(0x31, 0)) == Register(0xFFFFFFCE);
    hide Xor, Place;
  }

  lemma Step2()
    ensures Shifts(Xor(Register(0x7C231048), Place(0x32, 0)), 8) == Register(0xB0ACBB32)
  {
    assert Xor(Register(0x7C231048), Place(0x32, 0)) == Register(0x7C23107A);
    hide Xor, Place;
  }

  lemma Step3()
    ensures Shifts(Xor(Register(0xB0ACBB32), Place(0x33, 0)), 8) == Register(0x77B79C2D)
  {
    assert Xor(Register(0xB0ACBB32), Place(0x33, 0)) == Register(0xB0ACBB01);
    hide Xor, Place;
  }

  lemma Step4()
    ensures Shifts(Xor(Register(0x77B79C2D), Place(0x34, 0)), 8) == Register(0x641C1F5C)
  {
    assert Xor(Register(0x77B79C2D), Place(0x34, 0)) == Register(0x77B79C19);
    hide Xor, Place;
  }

  lemma Step5()
    ensures Shifts(Xor(Register(0x641C1F5C), Place(0x35, 0)), 8) == Register(0x340AC5E3)
  {
    assert Xor(Register(0x641C1F5C), Place(0x35, 0)) == Register(0x641C1F69);
    hide Xor, Place;
  }

  lemma Step6()
    ensures Shifts(Xor(Register(0x340AC5E3), Place(0x36, 0)), 8) == Register(0xF68D2C9E)
  {
    assert Xor(Register(0x340AC5E3), Place(0x36, 0)) == Register(0x340AC5D5);
    hide Xor, Place;
  }

  lemma Step7()
    ensures Shifts(Xor(Register(0xF68D2C9E), Place(0x37, 0)), 8) == Register(0xAFFC9660)
  {
    assert Xor(Register(0xF68D2C9E), Place(0x37, 0)) == Register(0xF68D2CA9);
    hide Xor, Place;
  }

  lemma Step8()
    ensures Shifts(Xor(Register(0xAFFC9660), Place(0x38, 0)), 8) == Register(0x651F2550)
  {
    assert Xor(Register(0xAFFC9660), Place(0x38, 0)) == Register(0xAFFC9658);
    hide Xor, Place;
  }

  lemma Step9()
    ensures Shifts(Xor(Register(0x651F2550), Place(0x39, 0)), 8) == Register(0x340BC6D9)
  {
    assert Xor(Register(0x651F2550), Place(0x39, 0)) == Register(0x651F2569);
    hide Xor, Place;
  }

  lemma StepAt(i: nat)
    requires i < 9
    ensures Shifts(Xor(Register(STATES[i]), Place(DIGITS[i], 0)), 8) == Register(STATES[i + 1])
  {
    hide Shifts, Xor, Place;
    match i
    case 0 => Step1();
    case 1 => Step2();
    case 2 => Step3();
    case 3 => Step4();
    case 4 => Step5();
    case 5 => Step6();
    case 6 => Step7();
    case 7 => Step8();
    case 8 => Step9();
  }

  lemma AbsorbOne(x: Register, b: bv8, rest: seq<bv8>)
    ensures Absorb(x, [b] + rest) == Absorb(Shifts(Xor(x, Place(b, 0)), 8), rest)
  {
    hide Shifts, Xor, Place;
    assert ([b] + rest)[1..] == rest;
  }

  lemma NextState(i: nat)
    requires i < 9
    ensures Absorb(Register(STATES[i]), DIGITS[i..]) == Absorb(Register(STATES[i + 1]), DIGITS[i + 1..])
  {
    hide Shifts, Xor, Place, Absorb;
    StepAt(i);
    assert DIGITS[i..] == [DIGITS[i]] + DIGITS[i + 1..];
    AbsorbOne(Register(STATES[i]), DIGITS[i], DIGITS[i + 1..]);
  }

  lemma AbsorbNothing(x: Register)
    ensures Absorb(x, []) == x
  {}

  lemma FinalXor()
    ensures Xor(Register(0x340BC6D9), ONES) == Register(0xCBF43926) && ONES == Register(STATES[0])
  {}

  /** The check value of CRC-32: it pins the polynomial, the bit order, the first register and the last
      exclusive or. */
  lemma CheckValue()
    ensures Checksum(DIGITS) == Register(0xCBF43926)
  {
    hide Shifts, Xor, Place, Absorb;
    FinalXor();
    assert DIGITS[0..] == DIGITS;
    for i := 0 to 9
      invariant Absorb(ONES, DIGITS) == Absorb(Register(STATES[i]), DIGITS[i..])
    {
      NextState(i);
    }
    AbsorbNothing(Register(STATES[9]));
    assert DIGITS[9..] == [];
  }

  // The residue

  /** The four bytes of a register, lowest first. */
  function Bytes(x: Register): seq<bv8> {
    [(x.bits & 0xFF) as bv8, ((x.bits >> 8) & 0xFF) as bv8, ((x.bits >> 16) & 0xFF) as bv8,
     ((x.bits >> 24) & 0xFF) as bv8]
  }

  lemma ByteBits(x: bv32)
    ensures ((x & 0xFF) as bv8) as bv32 == x & 0xFF
    ensures (((x >> 8) & 0xFF) as bv8) as bv32 << 8 == x & 0xFF00
    ensures ((((x >> 16) & 0xFF) as bv8) as bv32 << 8) << 8 == x & 0xFF0000
    ensures (((((x >> 24) & 0xFF) as bv8) as bv32 << 8) << 8) << 8 == x & 0xFF000000
  {}

  lemma PlaceUp(b: bv8, k: nat, w: bv32)
    requires k <= 3 && w == (if k == 0 then b as bv32 else if k == 1 then b as bv32 << 8
                             else if k == 2 then (b as bv32 << 8) << 8 else ((b as bv32 << 8) << 8) << 8)
    ensures Place(b, k) == Register(w)
  {
    assert Place(b, 0) == Register(b as bv32);
    if k >= 1 {
      assert Place(b, 1) == Register(b as bv32 << 8);
    }
    if k >= 2 {
      assert Place(b, 2) == Register((b as bv32 << 8) << 8);
    }
    if k >= 3 {
      assert Place(b, 3) == Register(((b as bv32 << 8) << 8) << 8);
    }
    hide Place;
  }

  lemma PlacesAre(x: Register)
    ensures var w := Bytes(x);
            && Place(w[0], 0) == Register(x.bits & 0xFF) && Place(w[1], 1) == Register(x.bits & 0xFF00)
            && Place(w[2], 2) == Register(x.bits & 0xFF0000) && Place(w[3], 3) == Register(x.bits & 0xFF000000)
  {
    hide Place;
    var w := Bytes(x);
    ByteBits(x.bits);
    PlaceUp(w[0], 0, x.bits & 0xFF);
    PlaceUp(w[1], 1, x.bits & 0xFF00);
    PlaceUp(w[2], 2, x.bits & 0xFF0000);
    PlaceUp(w[3], 3, x.bits & 0xFF000000);
  }

  lemma MasksXor(x: bv32, y: bv32, a: bv32, b: bv32, c: bv32, d: bv32, u: bv32, v: bv32, w: bv32, z: bv32)
    requires a == x & 0xFF && b == x & 0xFF00 && c == x & 0xFF0000 && d == x & 0xFF000000
    requires u == y ^ a && v == u ^ b && w == v ^ c && z == w ^ d
    ensures z == y ^ x
  {}

  lemma XorNamed(a: bv32, b: bv32) returns (r: bv32)
    ensures r == a ^ b
  {
    r := a ^ b;
  }

  lemma FourXors(y: bv32, a: bv32, b: bv32, c: bv32, d: bv32, u: bv32, v: bv32, w: bv32, z: bv32)
    requires u == y ^ a && v == u ^ b && w == v ^ c && z == w ^ d
    ensures Xor(Xor(Xor(Xor(Register(y), Register(a)), Register(b)), Register(c)), Register(d)) == Register(z)
  {
    hide Xor;
    XorOf(y, a, u);
    XorOf(u, b, v);
    XorOf(v, c, w);
    XorOf(w, d, z);
  }

  lemma MaskedXor(x: bv32, y: bv32, a: bv32, b: bv32, c: bv32, d: bv32)
    requires a == x & 0xFF && b == x & 0xFF00 && c == x & 0xFF0000 && d == x & 0xFF000000
    ensures Xor(Xor(Xor(Xor(Register(y), Register(a)), Register(b)), Register(c)), Register(d))
         == Xor(Register(y), Register(x))
  {
    hide Xor;
    var u, v, w, z := ChainOf(x, y, a, b, c, d);
    FourXors(y, a, b, c, d, u, v, w, z);
    XorOf(y, x, z);
  }

  lemma ChainOf(x: bv32, y: bv32, a: bv32, b: bv32, c: bv32, d: bv32) returns (u: bv32, v: bv32, w: bv32, z: bv32)
    requires a == x & 0xFF && b == x & 0xFF00 && c == x & 0xFF0000 && d == x & 0xFF000000
    ensures u == y ^ a && v == u ^ b && w == v ^ c && z == w ^ d && z == y ^ x
  {
    u := XorNamed(y, a);
    v := XorNamed(u, b);
    w := XorNamed(v, c);
    z := XorNamed(w, d);
    MasksXor(x, y, a, b, c, d, u, v, w, z);
  }

  lemma BytesMakeTheWord(x: Register, y: Register)
    ensures |Bytes(x)| == 4 && XorWord(y, Bytes(x)) == Xor(y, x)
  {
    assert |Bytes(x)| == 4;
    PlacesAre(x);
    hide Bytes, Place, Xor;
    MaskedXor(x.bits, y.bits, x.bits & 0xFF, x.bits & 0xFF00, x.bits & 0xFF0000, x.bits & 0xFF000000);
  }

  lemma ThirtyTwoShifts()
    ensures Shifts(ONES, 32) == Register(0xDEBB20E3)
  {
    assert Shifts(Register(0xFFFFFFFF), 8) == Register(0x2DFD1072);
    assert Shifts(Register(0x2DFD1072), 8) == Register(0xBE26ED00);
    assert Shifts(Register(0xBE26ED00), 8) == Register(0x00BE26ED);
    assert Shifts(Register(0x00BE26ED), 8) == Register(0xDEBB20E3);
    hide Shifts;
    ShiftsSplit(ONES, 8, 24);
    ShiftsSplit(Register(0x2DFD1072), 8, 16);
    ShiftsSplit(Register(0xBE26ED00), 8, 8);
  }

  lemma XorTwice(x: Register, y: Register)
    ensures Xor(x, Xor(x, y)) == y
  {}

  /** A message followed by its own checksum, lowest byte first, leaves the same register whatever the message
      is, so its checksum is the constant that receivers compare with. */
  lemma ResidueIsConstant(message: seq<bv8>)
    ensures Absorb(ONES, message + Bytes(Checksum(message))) == Register(0xDEBB20E3)
    ensures Checksum(message + Bytes(Checksum(message))) == Register(0x2144DF1C)
  {
    ResidueXor();
    hide Shifts, Xor, Place, Bytes, Absorb, XorWord;
    var x := Absorb(ONES, message);
    var w := Bytes(Checksum(message));
    BytesMakeTheWord(Checksum(message), x);
    AbsorbConcat(ONES, message, w);
    WordStep(x, w);
    XorTwice(x, ONES);
    ThirtyTwoShifts();
  }

  lemma ResidueXor()
    ensures Xor(Register(0xDEBB20E3), ONES) == Register(0x2144DF1C)
  {}
}
