/** Bytes and exclusive or. */
module Bytes {
  type Byte = b: int | 0 <= b < 256

  /** Exclusive or, bit by bit. */
  function XorBits(a: nat, b: nat): nat {
    if a == 0 && b == 0 then 0 else 2 * XorBits(a / 2, b / 2) + (a + b) % 2
  }

  function Xor(a: Byte, b: Byte): Byte {
    XorFits(a, b, 256);
    XorBits(a, b)
  }

  /** `limit` is a power of two. */
  predicate PowerOfTwo(limit: nat) {
    limit == 1 || (limit > 1 && limit % 2 == 0 && PowerOfTwo(limit / 2))
  }

  lemma {:induction false} XorFits(a: nat, b: nat, limit: nat)
    requires PowerOfTwo(limit) && a < limit && b < limit
    ensures XorBits(a, b) < limit
    decreases limit
  {
    if limit > 1 {
      XorFits(a / 2, b / 2, limit / 2);
    }
  }

  lemma XorUnfolds(a: nat, b: nat)
    ensures XorBits(a, b) == 2 * XorBits(a / 2, b / 2) + (a + b) % 2
  {}

  lemma LowBit(q: nat, a: nat, b: nat)
    ensures var r := 2 * q + (a + b) % 2;
            r / 2 == q && (r + b) % 2 == a % 2
  {}

  lemma {:induction false} BitsCancel(a: nat, b: nat)
    ensures XorBits(XorBits(a, b), b) == a
    decreases a + b
  {
    hide XorBits;
    if a == 0 && b == 0 {
      XorUnfolds(0, 0);
    } else {
      BitsCancel(a / 2, b / 2);
      var q := XorBits(a / 2, b / 2);
      XorUnfolds(a, b);
      LowBit(q, a, b);
      XorUnfolds(XorBits(a, b), b);
    }
  }

  lemma {:induction false} BitsCommute(a: nat, b: nat)
    ensures XorBits(a, b) == XorBits(b, a)
    decreases a + b
  {
    if a != 0 || b != 0 {
      BitsCommute(a / 2, b / 2);
    }
  }

  lemma XorCancels(a: Byte, b: Byte)
    ensures Xor(Xor(a, b), b) == a
  {
    BitsCancel(a, b);
  }

  lemma XorCommutes(a: Byte, b: Byte)
    ensures Xor(a, b) == Xor(b, a)
  {
    BitsCommute(a, b);
  }
}
