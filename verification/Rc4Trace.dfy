/** RC4 by its trace, every table and every index it goes through, and the program that computes it. */
module Rc4Trace {
  import opened Bytes
  import opened StreamCipher

  type Tables = seq<seq<int>>

  /** `after` is `before` with two entries exchanged. */
  ghost predicate Exchanged(before: seq<int>, after: seq<int>, i: int, j: int) {
    && |before| == |after| == 256 && 0 <= i < 256 && 0 <= j < 256
    && after[i] == before[j] && after[j] == before[i]
    && forall k :: 0 <= k < 256 && k != i && k != j ==> after[k] == before[k]
  }

  /** Key scheduling: 257 tables from the identity on, 257 indices from 0 on. */
  ghost predicate IsScheduling(tables: Tables, js: seq<int>, key: seq<Byte>)
    requires key != []
  {
    && |tables| == 257 && |js| == 257
    && |tables[0]| == 256 && (forall k :: 0 <= k < 256 ==> tables[0][k] == k) && js[0] == 0
    && forall k :: 0 <= k < 256 ==>
         && |tables[k]| == 256
         && js[k + 1] == (js[k] + tables[k][k] + key[k % |key|]) % 256
         && Exchanged(tables[k], tables[k + 1], k, js[k + 1])
  }

  /** The stream: from a first table and index 0, one table, one index and one byte of output a byte of data. */
  ghost predicate IsStream(tables: Tables, js: seq<int>, first: seq<int>, data: seq<Byte>, out: seq<Byte>) {
    && |out| == |data| && |tables| == |js| == |data| + 1
    && tables[0] == first && js[0] == 0
    && forall k :: 0 <= k < |data| ==> StreamStep(tables[k], js[k], tables[k + 1], js[k + 1], k, data[k], out[k])
  }

  /** Byte number `k` of the stream. */
  ghost predicate StreamStep(before: seq<int>, j: int, after: seq<int>, j': int, k: nat, byte: Byte, result: Byte) {
    var i := (k + 1) % 256;
    && |before| == 256 && j' == (j + before[i]) % 256 && Exchanged(before, after, i, j')
    && var t := after[(after[i] + after[j']) % 256];
    t >= 0 && IsXor(byte, t, result)
  }

  /** Bit by bit, the third number is the exclusive or of the first two. */
  ghost predicate IsXor(a: nat, b: nat, c: nat)
    decreases a + b
  {
    if a == 0 && b == 0 then c == 0
    else c % 2 == (if a % 2 == b % 2 then 0 else 1) && IsXor(a / 2, b / 2, c / 2)
  }

  /** `out` is what RC4 makes of the data under the key. */
  ghost predicate IsRc4(data: seq<Byte>, key: seq<Byte>, out: seq<Byte>)
    requires key != []
  {
    exists tables, js, tables', js' ::
      IsScheduling(tables, js, key) && IsStream(tables', js', tables[256], data, out)
  }

  // Exclusive or

  lemma {:induction false} BitsAreXor(a: nat, b: nat)
    ensures IsXor(a, b, XorBits(a, b))
    decreases a + b
  {
    if a != 0 || b != 0 {
      BitsAreXor(a / 2, b / 2);
      var q := XorBits(a / 2, b / 2);
      XorUnfolds(a, b);
      assert (2 * q + (a + b) % 2) / 2 == q && (2 * q + (a + b) % 2) % 2 == (a + b) % 2;
    }
  }

  lemma {:induction false} XorIsUnique(a: nat, b: nat, c: nat, d: nat)
    requires IsXor(a, b, c) && IsXor(a, b, d)
    ensures c == d
    decreases a + b
  {
    if a != 0 || b != 0 {
      XorIsUnique(a / 2, b / 2, c / 2, d / 2);
    }
  }

  // The trace of the program

  function ScheduleTables(key: seq<Byte>): Tables
    requires key != []
  {
    seq(257, k requires 0 <= k < 257 => Scheduled(key, k).s)
  }

  function ScheduleIndices(key: seq<Byte>): seq<int>
    requires key != []
  {
    seq(257, k requires 0 <= k < 257 => Scheduled(key, k).j)
  }

  lemma SwappedIsExchanged(s: Table, i: int, j: int)
    requires |s| == 256 && 0 <= i < 256 && 0 <= j < 256
    ensures Exchanged(s, Swapped(s, i, j), i, j)
  {}

  lemma RoundIsStep(key: seq<Byte>, k: nat)
    requires key != [] && k < 256
    ensures var c, c' := Scheduled(key, k), Scheduled(key, k + 1);
            c'.j == (c.j + c.s[k] + key[k % |key|]) % 256 && Exchanged(c.s, c'.s, k, c'.j)
  {
    var c := Scheduled(key, k);
    SwappedIsExchanged(c.s, k, Wrap(c.j + c.s[k], KeyAt(key, k)));
    hide Exchanged, Swapped;
    ScheduledNext(key, k);
  }

  lemma ScheduleIsScheduling(key: seq<Byte>)
    requires key != []
    ensures IsScheduling(ScheduleTables(key), ScheduleIndices(key), key)
    ensures ScheduleTables(key)[256] == Scheduled(key, 256).s
  {
    hide Scheduled, Exchanged, ScheduleTables, ScheduleIndices;
    var tables, js := ScheduleTables(key), ScheduleIndices(key);
    TablesAre(key, 0);
    TablesAre(key, 256);
    FirstTable(key);
    forall k | 0 <= k < 256
      ensures |tables[k]| == 256
      ensures js[k + 1] == (js[k] + tables[k][k] + key[k % |key|]) % 256
      ensures Exchanged(tables[k], tables[k + 1], k, js[k + 1])
    {
      TablesAre(key, k);
      TablesAre(key, k + 1);
      RoundIsStep(key, k);
    }
  }

  lemma TablesAre(key: seq<Byte>, k: nat)
    requires key != [] && k <= 256
    ensures |ScheduleTables(key)| == 257 && |ScheduleIndices(key)| == 257
    ensures ScheduleTables(key)[k] == Scheduled(key, k).s && ScheduleIndices(key)[k] == Scheduled(key, k).j
    ensures |Scheduled(key, k).s| == 256
  {
    hide Scheduled;
  }

  lemma FirstTable(key: seq<Byte>)
    requires key != []
    ensures Scheduled(key, 0).j == 0 && |Scheduled(key, 0).s| == 256
    ensures forall k :: 0 <= k < 256 ==> Scheduled(key, 0).s[k] == k
  {
    IdentityIs(256);
    hide Identity;
  }

  function StreamTables(c: Cipher, n: nat): Tables
    requires Valid(c)
  {
    seq(n + 1, k requires 0 <= k < n + 1 => AfterBytes(c, k).s)
  }

  function StreamIndices(c: Cipher, n: nat): seq<int>
    requires Valid(c)
  {
    seq(n + 1, k requires 0 <= k < n + 1 => AfterBytes(c, k).j)
  }

  lemma {:induction false} IndexCounts(c: Cipher, n: nat)
    requires Valid(c) && c.i == 0
    ensures AfterBytes(c, n).i == n % 256
  {
    if n > 0 {
      IndexCounts(c, n - 1);
      AdvancedIndex(AfterBytes(c, n - 1));
      hide Advanced, Valid, Wrap;
      NextIndex(n);
    } else {
      hide Advanced;
    }
  }

  lemma AdvancedIndex(c: Cipher)
    requires Valid(c)
    ensures Advanced(c).i == (c.i + 1) % 256
  {}

  lemma NextIndex(n: nat)
    requires n > 0
    ensures ((n - 1) % 256 + 1) % 256 == n % 256
  {}

  lemma {:induction false} AfterFirst(c: Cipher, n: nat)
    requires Valid(c)
    ensures AfterBytes(Advanced(c), n) == AfterBytes(c, n + 1)
  {
    hide Advanced;
    if n > 0 {
      AfterFirst(c, n - 1);
    } else {
      assert AfterBytes(c, 0) == c;
    }
  }

  lemma {:induction false} CryptAt(c: Cipher, data: seq<Byte>, k: nat)
    requires Valid(c) && k < |data|
    ensures Crypt(c, data)[k] == Xor(data[k], KeyByte(AfterBytes(c, k + 1)))
    decreases |data|
  {
    hide Advanced, KeyByte, Xor;
    if k > 0 {
      CryptAt(Advanced(c), data[1..], k - 1);
      AfterFirst(c, k);
    } else {
      assert AfterBytes(c, 0) == c;
    }
  }

  lemma AdvanceIsStep(c: Cipher, k: nat, byte: Byte)
    requires Valid(c) && c.i == k % 256
    ensures var c' := Advanced(c);
            StreamStep(c.s, c.j, c'.s, c'.j, k, byte, Xor(byte, KeyByte(c')))
  {
    var c', i := Advanced(c), Wrap(c.i, 1);
    assert i == (k + 1) % 256;
    SwappedIsExchanged(c.s, i, Wrap(c.j, c.s[i]));
    BitsAreXor(byte, KeyByte(c'));
    hide Exchanged, Swapped, IsXor, XorBits;
  }

  lemma StreamsAre(c: Cipher, n: nat, k: nat)
    requires Valid(c) && k <= n
    ensures |StreamTables(c, n)| == |StreamIndices(c, n)| == n + 1
    ensures StreamTables(c, n)[k] == AfterBytes(c, k).s && StreamIndices(c, n)[k] == AfterBytes(c, k).j
  {
    hide AfterBytes, Valid;
  }

  lemma NoBytes(c: Cipher)
    requires Valid(c)
    ensures AfterBytes(c, 0) == c
  {}

  lemma NextBytes(c: Cipher, k: nat)
    requires Valid(c)
    ensures AfterBytes(c, k + 1) == Advanced(AfterBytes(c, k))
  {
    hide Advanced, Valid;
  }

  lemma CryptIsStream(c: Cipher, data: seq<Byte>)
    requires Valid(c) && c.i == 0 && c.j == 0
    ensures IsStream(StreamTables(c, |data|), StreamIndices(c, |data|), c.s, data, Crypt(c, data))
  {
    hide Advanced, KeyByte, Xor, StreamStep, Crypt, StreamTables, StreamIndices, AfterBytes, Valid;
    var tables, js, out := StreamTables(c, |data|), StreamIndices(c, |data|), Crypt(c, data);
    StreamsAre(c, |data|, 0);
    NoBytes(c);
    forall k | 0 <= k < |data|
      ensures StreamStep(tables[k], js[k], tables[k + 1], js[k + 1], k, data[k], out[k])
    {
      StreamsAre(c, |data|, k);
      StreamsAre(c, |data|, k + 1);
      NextBytes(c, k);
      IndexCounts(c, k);
      AdvanceIsStep(AfterBytes(c, k), k, data[k]);
      CryptAt(c, data, k);
    }
  }

  lemma Rc4IsRc4(data: seq<Byte>, key: seq<Byte>)
    requires key != []
    ensures |Rc4(data, key)| == |data| && IsRc4(data, key, Rc4(data, key))
  {
    hide IsScheduling, IsStream, Scheduled, Crypt, ScheduleTables, ScheduleIndices, StreamTables, StreamIndices;
    var start := Scheduled(key, 256).(j := 0);
    ScheduleIsScheduling(key);
    CryptIsStream(start, data);
  }

  // There is one trace only

  lemma ExchangeIsUnique(before: seq<int>, a: seq<int>, b: seq<int>, i: int, j: int)
    requires Exchanged(before, a, i, j) && Exchanged(before, b, i, j)
    ensures a == b
  {}

  lemma {:induction false} SchedulingIsUnique(a: Tables, ja: seq<int>, b: Tables, jb: seq<int>, key: seq<Byte>, n: nat)
    requires key != [] && IsScheduling(a, ja, key) && IsScheduling(b, jb, key) && n <= 256
    ensures a[n] == b[n] && ja[n] == jb[n]
  {
    hide Exchanged;
    if n == 0 {
      assert forall k :: 0 <= k < 256 ==> a[0][k] == b[0][k];
    } else {
      SchedulingIsUnique(a, ja, b, jb, key, n - 1);
      assert Exchanged(a[n - 1], a[n - 1 + 1], n - 1, ja[n - 1 + 1]);
      assert Exchanged(b[n - 1], b[n - 1 + 1], n - 1, jb[n - 1 + 1]);
      ExchangeIsUnique(a[n - 1], a[n], b[n], n - 1, ja[n]);
    }
  }

  lemma StepIsUnique(before: seq<int>, j: int, a: seq<int>, ja: int, b: seq<int>, jb: int, k: nat, byte: Byte,
                     x: Byte, y: Byte)
    requires StreamStep(before, j, a, ja, k, byte, x) && StreamStep(before, j, b, jb, k, byte, y)
    ensures a == b && ja == jb && x == y
  {
    hide IsXor;
    var i := (k + 1) % 256;
    ExchangeIsUnique(before, a, b, i, ja);
    hide Exchanged;
    XorIsUnique(byte, a[(a[i] + a[ja]) % 256], x, y);
  }

  lemma {:induction false} StreamIsUnique(a: Tables, ja: seq<int>, x: seq<Byte>, b: Tables, jb: seq<int>, y: seq<Byte>,
                                          first: seq<int>, data: seq<Byte>, n: nat)
    requires IsStream(a, ja, first, data, x) && IsStream(b, jb, first, data, y) && n <= |data|
    ensures a[n] == b[n] && ja[n] == jb[n] && x[..n] == y[..n]
  {
    hide StreamStep;
    if n > 0 {
      StreamIsUnique(a, ja, x, b, jb, y, first, data, n - 1);
      var k := n - 1;
      StepIsUnique(a[k], ja[k], a[k + 1], ja[k + 1], b[k + 1], jb[k + 1], k, data[k], x[k], y[k]);
      assert x[..n] == x[..k] + [x[k]] && y[..n] == y[..k] + [y[k]];
    }
  }

  /** What the program computes is RC4: the one output whose trace keeps to the rules. */
  lemma Rc4Exactly(data: seq<Byte>, key: seq<Byte>, out: seq<Byte>)
    requires key != []
    ensures out == Rc4(data, key) <==> IsRc4(data, key, out)
  {
    hide Exchanged, IsStream, Rc4;
    Rc4IsRc4(data, key);
    if IsRc4(data, key, out) {
      var a, ja, a', ja' :| IsScheduling(a, ja, key) && IsStream(a', ja', a[256], data, out);
      var b, jb, b', jb' :| IsScheduling(b, jb, key) && IsStream(b', jb', b[256], data, Rc4(data, key));
      SchedulingIsUnique(a, ja, b, jb, key, 256);
      StreamIsUnique(a', ja', out, b', jb', Rc4(data, key), a[256], data, |data|);
      SameLength(a', ja', a[256], data, out);
      assert out[..|data|] == out && Rc4(data, key)[..|data|] == Rc4(data, key);
    }
  }

  lemma SameLength(tables: Tables, js: seq<int>, first: seq<int>, data: seq<Byte>, out: seq<Byte>)
    requires IsStream(tables, js, first, data, out)
    ensures |out| == |data|
  {}

  // The program, with its table in an array that is swapped in place

  method Swap(s: array<Byte>, i: int, j: int)
    requires 0 <= i < s.Length && 0 <= j < s.Length
    modifies s
    ensures s[..] == Swapped(old(s[..]), i, j)
  {
    s[i], s[j] := s[j], s[i];
  }

  method IdentityTable() returns (s: array<Byte>)
    ensures fresh(s) && s[..] == Identity(256)
  {
    s := new Byte[256](k requires 0 <= k < 256 => k);
    IdentityIs(256);
    hide Identity;
  }

  method Schedule(key: seq<Byte>) returns (s: array<Byte>)
    requires key != []
    ensures fresh(s) && s[..] == Scheduled(key, 256).s
  {
    s := IdentityTable();
    var j: int := 0;
    for i := 0 to 256
      invariant Cipher(s[..], 0, j) == Scheduled(key, i)
    {
      ghost var c := Scheduled(key, i);
      hide Wrap, KeyAt, Scheduled;
      j := Wrap(j + s[i], KeyAt(key, i));
      Swap(s, i, j);
      assert Cipher(s[..], 0, j) == Round(c, key, i);
      hide Round;
      ScheduledNext(key, i);
    }
  }

  /** Computes RC4. An empty key makes the program divide by zero. */
  method EncryptRc4(data: seq<Byte>, key: seq<Byte>) returns (out: seq<Byte>)
    requires key != []
    ensures out == Rc4(data, key)
    ensures IsRc4(data, key, out)
  {
    hide Xor, Scheduled, Wrap, Crypt, IsRc4;
    Rc4IsRc4(data, key);
    var s := Schedule(key);
    ghost var start := Scheduled(key, 256).(j := 0);
    out := [];
    var i: int := 0;
    var j: int := 0;
    assert data[0..] == data;
    for k := 0 to |data|
      invariant 0 <= i < 256 && 0 <= j < 256
      invariant out + Crypt(Cipher(s[..], i, j), data[k..]) == Crypt(start, data)
    {
      ghost var c := Cipher(s[..], i, j);
      CryptStep(c, data, k);
      i := Wrap(i, 1);
      j := Wrap(j, s[i]);
      Swap(s, i, j);
      assert Cipher(s[..], i, j) == Advanced(c);
      out := out + [Xor(data[k], s[Wrap(s[i], s[j])])];
    }
    CryptNothing(Cipher(s[..], i, j), data[|data|..]);
  }

  lemma CryptStep(c: Cipher, data: seq<Byte>, k: nat)
    requires Valid(c) && k < |data|
    ensures Crypt(c, data[k..]) == [Xor(data[k], KeyByte(Advanced(c)))] + Crypt(Advanced(c), data[k + 1..])
  {
    hide Xor, KeyByte, Advanced;
    assert data[k..][1..] == data[k + 1..];
  }

  lemma CryptNothing(c: Cipher, data: seq<Byte>)
    requires Valid(c) && data == []
    ensures Crypt(c, data) == []
  {}
}
