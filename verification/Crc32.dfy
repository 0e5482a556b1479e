/** CRC-32 as computed by `calculateCRC32`: the 256-entry table, the byte loop over it,
    and the bit-by-bit definition (section 8 of RFC 1952) that both are proved against. */
module Crc32 {

  /** The 32-bit register. The wrapper keeps bit-vector reasoning inside the lemmas that need it. */
  datatype Register = Register(bits: bv32)

  const POLY: bv32 := 0xEDB88320
  const ONES := Register(0xFFFFFFFF)

  function ShiftBits(x: bv32): bv32 {
    if x & 1 == 1 then POLY ^ (x >> 1) else x >> 1
  }

  /** One shift of the reflected CRC register. */
  function Shift(x: Register): Register {
    Register(ShiftBits(x.bits))
  }

  function Shifts(x: Register, n: nat): Register
    decreases n
  {
    if n == 0 then x else Shifts(Shift(x), n - 1)
  }

  function Xor(x: Register, y: Register): Register {
    Register(x.bits ^ y.bits)
  }

  /** Byte `b` at place `k` of a 32-bit word, place 0 lowest. */
  function Place(b: bv8, k: nat): Register {
    if k == 0 then Register(b as bv32) else Register(Place(b, k - 1).bits << 8)
  }

  /** The bit-by-bit register after a byte string: mix one byte into the low end, shift eight times. */
  function Absorb(x: Register, data: seq<bv8>): Register
    decreases |data|
  {
    if data == [] then x else Absorb(Shifts(Xor(x, Place(data[0], 0)), 8), data[1..])
  }

  /** The checksum of a byte string, bit by bit. */
  function Checksum(data: seq<bv8>): Register {
    Xor(Absorb(ONES, data), ONES)
  }

  // Bit-level facts

  lemma LowBit(x: bv32)
    ensures x & 1 == 0 || x & 1 == 1
  {}

  lemma HalfXor(x: bv32, y: bv32)
    ensures (x ^ y) >> 1 == (x >> 1) ^ (y >> 1)
    ensures (x ^ y) & 1 == (x & 1) ^ (y & 1)
  {}

  lemma XorRegroup(p: bv32, x: bv32, y: bv32)
    ensures (p ^ x) ^ (p ^ y) == x ^ y
    ensures (p ^ x) ^ y == p ^ (x ^ y)
    ensures x ^ (p ^ y) == p ^ (x ^ y)
  {}

  lemma ShiftBitsLinear(x: bv32, y: bv32)
    ensures ShiftBits(x ^ y) == ShiftBits(x) ^ ShiftBits(y)
  {
    HalfXor(x, y);
    LowBit(x);
    LowBit(y);
    XorRegroup(POLY, x >> 1, y >> 1);
    if x & 1 == 1 {
      if y & 1 == 1 {
        assert (x ^ y) & 1 == 0;
      } else {
        assert (x ^ y) & 1 == 1;
      }
    } else {
      if y & 1 == 1 {
        assert (x ^ y) & 1 == 1;
      } else {
        assert (x ^ y) & 1 == 0;
      }
    }
  }

  lemma ShiftOf(x: bv32, s: bv32)
    requires s == ShiftBits(x)
    ensures Shift(Register(x)) == Register(s)
  {
    hide ShiftBits;
  }

  lemma XorOf(x: bv32, y: bv32, z: bv32)
    requires z == x ^ y
    ensures Xor(Register(x), Register(y)) == Register(z)
  {}

  lemma ShiftLinearOf(x: bv32, y: bv32, z: bv32, sx: bv32, sy: bv32, sz: bv32)
    requires z == x ^ y && sx == ShiftBits(x) && sy == ShiftBits(y) && sz == ShiftBits(z)
    ensures sz == sx ^ sy
  {
    hide ShiftBits;
    ShiftBitsLinear(x, y);
  }

  /** The register step is linear. */
  lemma ShiftLinear(x: Register, y: Register)
    ensures Shift(Xor(x, y)) == Xor(Shift(x), Shift(y))
  {
    hide Shift, Xor, ShiftBits;
    var a, b := x.bits, y.bits;
    var c := a ^ b;
    var sa, sb, sc := ShiftBits(a), ShiftBits(b), ShiftBits(c);
    ShiftLinearOf(a, b, c, sa, sb, sc);
    XorOf(a, b, c);
    XorOf(sa, sb, sc);
    ShiftOf(a, sa);
    ShiftOf(b, sb);
    ShiftOf(c, sc);
  }

  lemma ShiftBitsInjective(x: bv32, y: bv32)
    ensures ShiftBits(x) == ShiftBits(y) ==> x == y
  {}

  lemma ShiftInjective(x: Register, y: Register)
    requires Shift(x) == Shift(y)
    ensures x == y
  {
    hide ShiftBits;
    ShiftBitsInjective(x.bits, y.bits);
  }

  lemma XorBitsInjective(x: bv32, y: bv32, z: bv32)
    ensures x ^ z == y ^ z ==> x == y
    ensures z ^ x == z ^ y ==> x == y
  {}

  lemma XorInjective(x: Register, y: Register, z: Register)
    ensures Xor(x, z) == Xor(y, z) ==> x == y
    ensures Xor(z, x) == Xor(z, y) ==> x == y
  {
    XorBitsInjective(x.bits, y.bits, z.bits);
  }

  lemma EvenTwice(x: bv32)
    requires x & 0x3 == 0
    ensures ShiftBits(ShiftBits(x)) == x >> 2
  {
    assert x & 1 == 0 && (x >> 1) & 1 == 0 && (x >> 1) >> 1 == x >> 2;
  }

  lemma ClearLow2(x: bv32)
    requires x & 0x3 == 0
    ensures Shifts(Register(x), 2) == Register(x >> 2)
  {
    hide ShiftBits;
    EvenTwice(x);
    assert Shifts(Register(x), 2) == Shifts(Shift(Register(x)), 1);
  }

  lemma ClearLow4(x: bv32)
    requires x & 0xF == 0
    ensures Shifts(Register(x), 4) == Register(x >> 4)
  {
    hide Shift, Shifts;
    ShiftsSplit(Register(x), 2, 2);
    ClearLow2(x);
    ClearLow2(x >> 2);
  }

  /** With a clear low byte no feedback happens, so eight shifts only move bits. */
  lemma ClearLow8(x: bv32)
    requires x & 0xFF == 0
    ensures Shifts(Register(x), 8) == Register(x >> 8)
  {
    hide Shift, Shifts;
    ShiftsSplit(Register(x), 4, 4);
    ClearLow4(x);
    ClearLow4(x >> 4);
  }

  lemma PlaceBits(b: bv8)
    ensures Place(b, 0).bits == b as bv32 && Place(b, 1).bits == (b as bv32) << 8
    ensures Place(b, 2).bits == (b as bv32) << 16 && Place(b, 3).bits == (b as bv32) << 24
  {
    assert Place(b, 2).bits == Place(b, 1).bits << 8 && Place(b, 3).bits == Place(b, 2).bits << 8;
  }

  lemma UpAndDown(w: bv32)
    requires w & 0xFFFFFF00 == 0
    ensures (w << 8) & 0xFF == 0 && (w << 8) >> 8 == w
    ensures (w << 16) & 0xFF == 0 && (w << 16) >> 8 == w << 8
    ensures (w << 24) & 0xFF == 0 && (w << 24) >> 8 == w << 16
  {}

  /** Eight shifts move a byte one place down. */
  lemma PlaceDown(b: bv8, k: nat)
    requires 0 < k <= 3
    ensures Shifts(Place(b, k), 8) == Place(b, k - 1)
  {
    hide Shift, Shifts, Place;
    PlaceBits(b);
    assert (b as bv32) & 0xFFFFFF00 == 0;
    UpAndDown(b as bv32);
    ClearLow8(Place(b, k).bits);
  }

  function UpperBytes(x: Register): Register {
    Register(x.bits >> 8)
  }

  function LowByte(x: Register): bv8 {
    (x.bits & 0xFF) as bv8
  }

  lemma SplitBits(x: bv32, hi: bv32, low: bv8, w: bv32)
    requires hi == x & 0xFFFFFF00 && low == (x & 0xFF) as bv8 && w == low as bv32
    ensures x == hi ^ w
  {}

  function UpperPart(x: Register): Register {
    Register(x.bits & 0xFFFFFF00)
  }

  lemma UpperPartOf(x: bv32, hi: bv32)
    requires hi == x & 0xFFFFFF00
    ensures UpperPart(Register(x)) == Register(hi)
  {}

  lemma UpperBytesOf(x: bv32, up: bv32)
    requires up == x >> 8
    ensures UpperBytes(Register(x)) == Register(up)
  {}

  lemma LowByteOf(x: bv32, low: bv8)
    requires low == (x & 0xFF) as bv8
    ensures LowByte(Register(x)) == low
  {}

  lemma PlaceLowOf(low: bv8, w: bv32)
    requires w == low as bv32
    ensures Place(low, 0) == Register(w)
  {}

  lemma SplitXor(x: Register)
    ensures x == Xor(UpperPart(x), Place(LowByte(x), 0))
  {
    hide Xor, Place, LowByte, UpperPart, UpperBytes;
    var b := x.bits;
    var hi, low := b & 0xFFFFFF00, (b & 0xFF) as bv8;
    var w := low as bv32;
    UpperPartOf(b, hi);
    LowByteOf(b, low);
    PlaceLowOf(low, w);
    SplitBits(b, hi, low, w);
    XorOf(hi, w, b);
  }

  lemma UpperBits(x: bv32, hi: bv32, up: bv32)
    requires hi == x & 0xFFFFFF00 && up == x >> 8
    ensures hi & 0xFF == 0 && hi >> 8 == up
  {}

  lemma UpperShifts(x: bv32, hi: bv32, up: bv32)
    requires hi == x & 0xFFFFFF00 && up == x >> 8
    ensures Shifts(Register(hi), 8) == Register(up)
  {
    hide Shift, Shifts;
    UpperBits(x, hi, up);
    ClearLow8(hi);
  }

  lemma UpperPartShifts(x: Register)
    ensures Shifts(UpperPart(x), 8) == UpperBytes(x)
  {
    hide Shift, Shifts, Place, LowByte, UpperPart, UpperBytes;
    var b := x.bits;
    var hi, up := b & 0xFFFFFF00, b >> 8;
    UpperPartOf(b, hi);
    UpperBytesOf(b, up);
    UpperShifts(b, hi, up);
  }

  lemma UpperBytesOfMix(x: Register, b: bv8)
    ensures UpperBytes(Xor(x, Place(b, 0))) == UpperBytes(x)
  {}

  /** Four bytes mixed into a register as the 32-bit word they form, first byte lowest. */
  function XorWord(x: Register, w: seq<bv8>): Register
    requires |w| == 4
  {
    Xor(Xor(Xor(Xor(x, Place(w[0], 0)), Place(w[1], 1)), Place(w[2], 2)), Place(w[3], 3))
  }

  /** The byte of a register at place `k`, left in its place. */
  function Masked(x: Register, k: nat): Register
    requires k < 4
  {
    MaskBy(x, MaskBits(k))
  }

  function MaskBy(x: Register, m: bv32): Register {
    Register(x.bits & m)
  }

  function MaskBits(k: nat): bv32
    requires k < 4
  {
    if k == 0 then 0xFF else if k == 1 then 0xFF00 else if k == 2 then 0xFF0000 else 0xFF000000
  }

  lemma MaskOf(x: bv32, k: nat, r: bv32)
    requires k < 4 && r == x & MaskBits(k)
    ensures Masked(Register(x), k) == Register(r)
  {
    hide MaskBits;
  }

  lemma MaskXorBits(x: bv32, y: bv32, z: bv32, m: bv32, mx: bv32, my: bv32, mz: bv32)
    requires z == x ^ y && mx == x & m && my == y & m && mz == z & m
    ensures mz == mx ^ my
  {}

  lemma MaskByOf(x: bv32, m: bv32, r: bv32)
    requires r == x & m
    ensures MaskBy(Register(x), m) == Register(r)
  {}

  lemma MaskByXorOf(x: bv32, y: bv32, z: bv32, m: bv32, mx: bv32, my: bv32, mz: bv32)
    requires z == x ^ y && mx == x & m && my == y & m && mz == z & m
    ensures MaskBy(Xor(Register(x), Register(y)), m) == Xor(MaskBy(Register(x), m), MaskBy(Register(y), m))
  {
    hide Xor, MaskBy;
    MaskXorBits(x, y, z, m, mx, my, mz);
    XorOf(x, y, z);
    XorOf(mx, my, mz);
    MaskByOf(x, m, mx);
    MaskByOf(y, m, my);
    MaskByOf(z, m, mz);
  }

  lemma MaskByXor(x: Register, y: Register, m: bv32)
    ensures MaskBy(Xor(x, y), m) == Xor(MaskBy(x, m), MaskBy(y, m))
  {
    hide Xor, MaskBy;
    var a, b := x.bits, y.bits;
    var c := a ^ b;
    MaskByXorOf(a, b, c, m, a & m, b & m, c & m);
  }

  lemma MaskXor(x: Register, y: Register, k: nat)
    requires k < 4
    ensures Masked(Xor(x, y), k) == Xor(Masked(x, k), Masked(y, k))
  {
    hide MaskBits, MaskBy, Xor;
    MaskByXor(x, y, MaskBits(k));
  }

  lemma PlaceMasks(w: bv32)
    requires w & 0xFFFFFF00 == 0
    ensures w & 0xFF == w && w & 0xFF00 == 0 && w & 0xFF0000 == 0 && w & 0xFF000000 == 0
    ensures (w << 8) & 0xFF == 0 && (w << 8) & 0xFF00 == w << 8
    ensures (w << 8) & 0xFF0000 == 0 && (w << 8) & 0xFF000000 == 0
    ensures (w << 16) & 0xFF == 0 && (w << 16) & 0xFF00 == 0
    ensures (w << 16) & 0xFF0000 == w << 16 && (w << 16) & 0xFF000000 == 0
    ensures (w << 24) & 0xFF == 0 && (w << 24) & 0xFF00 == 0
    ensures (w << 24) & 0xFF0000 == 0 && (w << 24) & 0xFF000000 == w << 24
  {}

  lemma MaskPlace(b: bv8, j: nat, k: nat)
    requires j < 4 && k < 4
    ensures Masked(Place(b, j), k) == if j == k then Place(b, k) else Register(0)
  {
    PlaceBits(b);
    hide Place, Masked;
    assert (b as bv32) & 0xFFFFFF00 == 0;
    PlaceMasks(b as bv32);
    MaskOf(Place(b, j).bits, k, if j == k then Place(b, k).bits else 0);
  }

  lemma PlaceInjective(a: bv8, b: bv8, k: nat)
    requires k < 4 && Place(a, k) == Place(b, k)
    ensures a == b
  {
    PlaceBits(a);
    PlaceBits(b);
    WidenInjective(a, b, a as bv32, b as bv32);
  }

  lemma WidenInjective(a: bv8, b: bv8, u: bv32, v: bv32)
    requires u == a as bv32 && v == b as bv32
    requires u == v || u << 8 == v << 8 || u << 16 == v << 16 || u << 24 == v << 24
    ensures a == b
  {}

  lemma XorZero(x: Register)
    ensures Xor(x, Register(0)) == x
  {
    assert x.bits ^ 0 == x.bits;
  }

  lemma MaskWord(x: Register, w: seq<bv8>, k: nat)
    requires |w| == 4 && k < 4
    ensures Masked(XorWord(x, w), k) == Xor(Masked(x, k), Place(w[k], k))
  {
    hide Xor, Place, Masked;
    var x1 := Xor(x, Place(w[0], 0));
    var x2 := Xor(x1, Place(w[1], 1));
    var x3 := Xor(x2, Place(w[2], 2));
    MaskXor(x, Place(w[0], 0), k);
    MaskXor(x1, Place(w[1], 1), k);
    MaskXor(x2, Place(w[2], 2), k);
    MaskXor(x3, Place(w[3], 3), k);
    MaskPlace(w[0], 0, k);
    MaskPlace(w[1], 1, k);
    MaskPlace(w[2], 2, k);
    MaskPlace(w[3], 3, k);
    XorZero(Masked(x, k));
    XorZero(Masked(x1, k));
    XorZero(Masked(x2, k));
    XorZero(Masked(x3, k));
  }

  lemma XorWordInjective(x: Register, v: seq<bv8>, w: seq<bv8>)
    requires |v| == |w| == 4 && XorWord(x, v) == XorWord(x, w)
    ensures v == w
  {
    hide Xor, Place, Masked, XorWord;
    forall k: nat | k < 4
      ensures v[k] == w[k]
    {
      MaskWord(x, v, k);
      MaskWord(x, w, k);
      XorInjective(Place(v[k], k), Place(w[k], k), Masked(x, k));
      PlaceInjective(v[k], w[k], k);
    }
  }

  // Sequences of shifts

  lemma {:induction false} ShiftsLinear(x: Register, y: Register, n: nat)
    ensures Shifts(Xor(x, y), n) == Xor(Shifts(x, n), Shifts(y, n))
    decreases n
  {
    hide Shift, Xor;
    if n > 0 {
      ShiftLinear(x, y);
      ShiftsLinear(Shift(x), Shift(y), n - 1);
    }
  }

  lemma {:induction false} ShiftsSplit(x: Register, m: nat, n: nat)
    ensures Shifts(x, m + n) == Shifts(Shifts(x, m), n)
    decreases m
  {
    hide Shift;
    if m > 0 {
      ShiftsSplit(Shift(x), m - 1, n);
    }
  }

  lemma {:induction false} ShiftsInjective(x: Register, y: Register, n: nat)
    requires Shifts(x, n) == Shifts(y, n)
    ensures x == y
    decreases n
  {
    hide Shift;
    if n > 0 {
      ShiftsInjective(Shift(x), Shift(y), n - 1);
      ShiftInjective(x, y);
    }
  }

  /** The identity behind the table: eight shifts are one byte-wide shift mixed with the table
      entry that the low byte selects. */
  lemma TableStep(x: Register)
    ensures Shifts(x, 8) == Xor(UpperBytes(x), Shifts(Place(LowByte(x), 0), 8))
  {
    hide Shift, Shifts, Xor, Place, LowByte, UpperPart, UpperBytes;
    SplitXor(x);
    UpperPartShifts(x);
    ShiftsLinear(UpperPart(x), Place(LowByte(x), 0), 8);
  }

  /** Mixing a byte in after `8 * k` shifts is mixing it in `k` places higher before them. */
  lemma {:induction false} MixEarly(x: Register, b: bv8, k: nat)
    requires k <= 3
    ensures Xor(Shifts(x, 8 * k), Place(b, 0)) == Shifts(Xor(x, Place(b, k)), 8 * k)
    decreases k
  {
    hide Shift, Xor, Place;
    if k > 0 {
      PlaceDown(b, k);
      ShiftsLinear(x, Place(b, k), 8);
      ShiftsSplit(x, 8, 8 * (k - 1));
      ShiftsSplit(Xor(x, Place(b, k)), 8, 8 * (k - 1));
      MixEarly(Shifts(x, 8), b, k - 1);
    }
  }

  // Byte strings

  /** Feeding the same bytes to two different registers leaves two different registers. */
  lemma {:induction false} AbsorbInjective(x: Register, y: Register, data: seq<bv8>)
    requires Absorb(x, data) == Absorb(y, data)
    ensures x == y
    decreases |data|
  {
    hide Shift, Shifts, Xor, Place;
    if data != [] {
      var b := Place(data[0], 0);
      AbsorbInjective(Shifts(Xor(x, b), 8), Shifts(Xor(y, b), 8), data[1..]);
      ShiftsInjective(Xor(x, b), Xor(y, b), 8);
      XorInjective(x, y, b);
    }
  }

  lemma {:induction false} AbsorbConcat(x: Register, a: seq<bv8>, b: seq<bv8>)
    ensures Absorb(x, a + b) == Absorb(Absorb(x, a), b)
    decreases |a|
  {
    hide Shift, Shifts, Xor, Place;
    if a == [] {
      assert a + b == b;
    } else {
      assert (a + b)[1..] == a[1..] + b;
      AbsorbConcat(Shifts(Xor(x, Place(a[0], 0)), 8), a[1..], b);
    }
  }

  /** Four bytes act on the register as one 32-bit word followed by 32 shifts. */
  lemma WordStep(x: Register, w: seq<bv8>)
    requires |w| == 4
    ensures Absorb(x, w) == Shifts(XorWord(x, w), 32)
  {
    hide Shift, Shifts, Xor, Place;
    var w1, w2, w3 := w[1..], w[2..], w[3..];
    assert w1[1..] == w2 && w2[1..] == w3 && w3[1..] == [];
    var y0 := Xor(x, Place(w[0], 0));
    var y1 := Xor(y0, Place(w[1], 1));
    var y2 := Xor(y1, Place(w[2], 2));
    var y3 := Xor(y2, Place(w[3], 3));
    assert Absorb(x, w) == Absorb(Shifts(y0, 8), w1);
    MixEarly(y0, w[1], 1);
    ShiftsSplit(y1, 8, 8);
    assert Absorb(Shifts(y0, 8), w1) == Absorb(Shifts(y1, 16), w2);
    MixEarly(y1, w[2], 2);
    ShiftsSplit(y2, 16, 8);
    assert Absorb(Shifts(y1, 16), w2) == Absorb(Shifts(y2, 24), w3);
    MixEarly(y2, w[3], 3);
    ShiftsSplit(y3, 24, 8);
  }

  /** Equal checksums mean equal registers right after the windows in which two messages differ. */
  lemma SameWindow(pre: seq<bv8>, v: seq<bv8>, w: seq<bv8>, post: seq<bv8>)
    requires Checksum(pre + v + post) == Checksum(pre + w + post)
    ensures Absorb(Absorb(ONES, pre), v) == Absorb(Absorb(ONES, pre), w)
  {
    hide Shift, Shifts, Xor, Place, Absorb;
    XorInjective(Absorb(ONES, pre + v + post), Absorb(ONES, pre + w + post), ONES);
    AbsorbConcat(ONES, pre + v, post);
    AbsorbConcat(ONES, pre, v);
    AbsorbConcat(ONES, pre + w, post);
    AbsorbConcat(ONES, pre, w);
    AbsorbInjective(Absorb(Absorb(ONES, pre), v), Absorb(Absorb(ONES, pre), w), post);
  }

  /** Burst detection: two messages that differ only inside a window of four bytes never
      share a checksum, wherever the window lies. */
  lemma BurstDetected(pre: seq<bv8>, v: seq<bv8>, w: seq<bv8>, post: seq<bv8>)
    requires |v| == |w| == 4 && v != w
    ensures Checksum(pre + v + post) != Checksum(pre + w + post)
  {
    hide Shift, Shifts, Xor, Place, Absorb, XorWord, Checksum;
    if Checksum(pre + v + post) == Checksum(pre + w + post) {
      SameWindow(pre, v, w, post);
      var x := Absorb(ONES, pre);
      WordStep(x, v);
      WordStep(x, w);
      ShiftsInjective(XorWord(x, v), XorWord(x, w), 32);
      XorWordInjective(x, v, w);
    }
  }

  lemma LowPlaceDiffers(a: bv8, b: bv8)
    ensures Place(a, 0) == Place(b, 0) ==> a == b
  {
    if Place(a, 0) == Place(b, 0) {
      PlaceInjective(a, b, 0);
    }
  }

  /** Two messages of equal length that differ in exactly one byte never share a checksum. */
  lemma SingleByteDetected(a: seq<bv8>, b: seq<bv8>, i: nat)
    requires i < |a| == |b|
    requires a[i] != b[i]
    requires forall k :: 0 <= k < |a| && k != i ==> a[k] == b[k]
    ensures Checksum(a) != Checksum(b)
  {
    hide Shift, Shifts, Xor, Place, Checksum;
    var pre, post := a[..i], a[i + 1..];
    assert a == pre + [a[i]] + post && b == pre + [b[i]] + post;
    if Checksum(a) == Checksum(b) {
      var x, u, v := Absorb(ONES, pre), Place(a[i], 0), Place(b[i], 0);
      assert Absorb(x, [a[i]]) == Shifts(Xor(x, u), 8) && Absorb(x, [b[i]]) == Shifts(Xor(x, v), 8);
      SameWindow(pre, [a[i]], [b[i]], post);
      ShiftsInjective(Xor(x, u), Xor(x, v), 8);
      XorInjective(u, v, x);
      LowPlaceDiffers(a[i], b[i]);
    }
  }

  // The code

  /** What the table holds at index `k`. */
  function Entry(k: int): Register
    requires 0 <= k < 256
  {
    Shifts(Place(k as bv8, 0), 8)
  }

  lemma ByteRoundTrip(b: bv8)
    ensures (b as int) as bv8 == b
  {}

  /** `calculateCRC32` up to the hex formatting of its result: its three loops, over the same table. */
  method CalculateCRC32(data: seq<bv8>) returns (result: Register)
    ensures result == Checksum(data)
  {
    hide Shift, Shifts, Xor, Place, Entry;
    var crcTable := BuildTable();
    var crc := ONES;
    var i := 0;
    while i < |data|
      invariant 0 <= i <= |data|
      invariant forall k :: 0 <= k < 256 ==> crcTable[k] == Entry(k)
      invariant Absorb(crc, data[i..]) == Absorb(ONES, data)
    {
      var mixed := Xor(crc, Place(data[i], 0));
      TableStep(mixed);
      UpperBytesOfMix(crc, data[i]);
      EntryOf(LowByte(mixed));
      assert data[i..][1..] == data[i + 1..];
      crc := Xor(UpperBytes(crc), crcTable[LowByte(mixed) as int]);
      i := i + 1;
    }
    result := Xor(crc, ONES);
  }

  lemma EntryOf(b: bv8)
    ensures Entry(b as int) == Shifts(Place(b, 0), 8)
  {
    hide Shift, Shifts, Place;
    ByteRoundTrip(b);
  }

  method BuildTable() returns (crcTable: array<Register>)
    ensures fresh(crcTable) && crcTable.Length == 256
    ensures forall k :: 0 <= k < 256 ==> crcTable[k] == Entry(k)
  {
    hide Shift, Place, Entry;
    crcTable := new Register[256];
    var i := 0;
    while i < 256
      invariant 0 <= i <= 256
      invariant forall k :: 0 <= k < i ==> crcTable[k] == Entry(k)
    {
      var crc := Place(i as bv8, 0);
      ghost var start := crc;
      var j := 0;
      while j < 8
        invariant 0 <= j <= 8 && 0 <= i < 256
        invariant forall k :: 0 <= k < i ==> crcTable[k] == Entry(k)
        invariant Shifts(crc, 8 - j) == Shifts(start, 8)
      {
        crc := ShiftOnce(crc);
        j := j + 1;
      }
      EntryIs(i);
      crcTable[i] := crc;
      i := i + 1;
    }
  }

  lemma EntryIs(i: int)
    requires 0 <= i < 256
    ensures Entry(i) == Shifts(Place(i as bv8, 0), 8)
  {
    hide Shifts, Place;
  }

  method ShiftOnce(x: Register) returns (r: Register)
    ensures r == Shift(x)
  {
    r := Register(if x.bits & 1 == 1 then 0xEDB88320 ^ (x.bits >> 1) else x.bits >> 1);
  }
}
