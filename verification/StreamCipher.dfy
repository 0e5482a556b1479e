/** RC4 as functions of its state. */
module StreamCipher {
  import opened Bytes

  type Table = seq<Byte>

  /** The table and the two indices. */
  datatype Cipher = Cipher(s: Table, i: int, j: int)

  predicate Valid(c: Cipher) {
    |c.s| == 256 && 0 <= c.i < 256 && 0 <= c.j < 256
  }

  function Identity(n: nat): (s: seq<Byte>)
    requires n <= 256
    ensures |s| == n
  {
    if n == 0 then [] else Identity(n - 1) + [n - 1]
  }

  lemma {:induction false} IdentityIs(n: nat)
    requires n <= 256
    ensures forall k :: 0 <= k < n ==> Identity(n)[k] == k
  {
    if n > 0 {
      IdentityIs(n - 1);
    }
  }

  function Wrap(a: int, b: int): (r: int)
    ensures 0 <= r < 256
  {
    (a + b) % 256
  }

  function Swapped(s: Table, i: int, j: int): Table
    requires 0 <= i < |s| && 0 <= j < |s|
  {
    s[i := s[j]][j := s[i]]
  }

  /** The key, repeated. */
  function KeyAt(key: seq<Byte>, i: nat): Byte
    requires key != []
  {
    key[i % |key|]
  }

  /** One round of key scheduling. */
  function Round(c: Cipher, key: seq<Byte>, i: nat): (c': Cipher)
    requires Valid(c) && key != [] && i < 256
    ensures Valid(c') && c'.i == 0
  {
    var j := Wrap(c.j + c.s[i], KeyAt(key, i));
    Cipher(Swapped(c.s, i, j), 0, j)
  }

  /** The state after `n` rounds of key scheduling. */
  function Scheduled(key: seq<Byte>, n: nat): (c: Cipher)
    requires key != [] && n <= 256
    ensures Valid(c) && c.i == 0
  {
    if n == 0 then Cipher(Identity(256), 0, 0)
    else Round(Scheduled(key, n - 1), key, n - 1)
  }

  /** One round of key stream generation. */
  function Advanced(c: Cipher): (c': Cipher)
    requires Valid(c)
    ensures Valid(c')
  {
    var i := Wrap(c.i, 1);
    var j := Wrap(c.j, c.s[i]);
    Cipher(Swapped(c.s, i, j), i, j)
  }

  function KeyByte(c: Cipher): Byte
    requires Valid(c)
  {
    c.s[Wrap(c.s[c.i], c.s[c.j])]
  }

  function Crypt(c: Cipher, data: seq<Byte>): (out: seq<Byte>)
    requires Valid(c)
    ensures |out| == |data|
    decreases |data|
  {
    if data == [] then []
    else
      var c' := Advanced(c);
      [Xor(data[0], KeyByte(c'))] + Crypt(c', data[1..])
  }

  function Rc4(data: seq<Byte>, key: seq<Byte>): seq<Byte>
    requires key != []
  {
    Crypt(Scheduled(key, 256).(j := 0), data)
  }

  /** Every byte stands in the table exactly once. */
  ghost predicate IsPermutation(s: Table) {
    |s| == 256 && (forall i, j :: 0 <= i < j < 256 ==> s[i] != s[j]) && forall b: Byte :: b in s
  }

  lemma SwapKeepsPermutation(s: Table, i: int, j: int)
    requires IsPermutation(s) && 0 <= i < 256 && 0 <= j < 256
    ensures IsPermutation(Swapped(s, i, j))
  {
    var t := Swapped(s, i, j);
    forall b: Byte
      ensures b in t
    {
      assert b in s;
      var k :| 0 <= k < |s| && s[k] == b;
      assert t[if k == i then j else if k == j then i else k] == b;
    }
  }

  lemma {:induction false} SchedulingPermutes(key: seq<Byte>, n: nat)
    requires key != [] && n <= 256
    ensures IsPermutation(Scheduled(key, n).s)
  {
    if n == 0 {
      IdentityIs(256);
      forall b: Byte
        ensures b in Identity(256)
      {
        assert Identity(256)[b] == b;
      }
    } else {
      SchedulingPermutes(key, n - 1);
      var c := Scheduled(key, n - 1);
      SwapKeepsPermutation(c.s, n - 1, Wrap(c.j + c.s[n - 1], KeyAt(key, n - 1)));
    }
  }

  /** The state after `n` bytes. */
  function AfterBytes(c: Cipher, n: nat): (c': Cipher)
    requires Valid(c)
    ensures Valid(c')
  {
    if n == 0 then c else Advanced(AfterBytes(c, n - 1))
  }

  /** The table stays a permutation of the bytes for as long as the cipher runs. */
  lemma {:induction false} TableStaysPermutation(key: seq<Byte>, n: nat)
    requires key != []
    ensures IsPermutation(AfterBytes(Scheduled(key, 256).(j := 0), n).s)
    decreases n
  {
    if n == 0 {
      SchedulingPermutes(key, 256);
    } else {
      TableStaysPermutation(key, n - 1);
      var c := AfterBytes(Scheduled(key, 256).(j := 0), n - 1);
      var i := Wrap(c.i, 1);
      SwapKeepsPermutation(c.s, i, Wrap(c.j, c.s[i]));
    }
  }

  lemma {:induction false} CryptTwice(c: Cipher, data: seq<Byte>)
    requires Valid(c)
    ensures Crypt(c, Crypt(c, data)) == data
    decreases |data|
  {
    hide Xor, KeyByte, Advanced;
    if data != [] {
      var c' := Advanced(c);
      var first := Xor(data[0], KeyByte(c'));
      var once := Crypt(c, data);
      assert once == [first] + Crypt(c', data[1..]);
      assert once[1..] == Crypt(c', data[1..]);
      XorCancels(data[0], KeyByte(c'));
      CryptTwice(c', data[1..]);
      assert data == [data[0]] + data[1..];
    }
  }

  /** RC4 undoes itself, for every data and every key that is not empty. */
  lemma Rc4Inverts(data: seq<Byte>, key: seq<Byte>)
    requires key != []
    ensures Rc4(Rc4(data, key), key) == data
  {
    CryptTwice(Scheduled(key, 256).(j := 0), data);
  }

  lemma ScheduledNext(key: seq<Byte>, i: nat)
    requires key != [] && i < 256
    ensures Scheduled(key, i + 1) == Round(Scheduled(key, i), key, i)
  {}
}
