/** The canonical request of the older service beside the gateway's. */
module OlderSignature {
  import opened Text
  import opened Blanks
  import opened Wrappers
  import opened SigV4
  import CanonicalForm

  /** The older service signs the date, a token that is not empty, and the hash of a payload. */
  function OlderHeaders(date: string, token: Option<string>, hash: Option<string>): seq<Pair> {
    [Pair(DATE, date)] + (if token.Some? && token.value != "" then [Pair(TOKEN, token.value)] else [])
    + (if hash.Some? then [Pair(CONTENT_HASH, hash.value)] else [])
  }

  function OlderCanonical(verb: string, path: string, query: seq<Pair>, date: string, token: Option<string>,
                          payload: string, payloadHash: string, emptyHash: string): Request {
    var hash := if HasPayload(verb, payload) then Some(payloadHash) else None;
    var sorted := StableSort(Utf16, OlderHeaders(date, token, hash));
    Assembled(verb, path, QueryText(Utf16, query), HeaderBlock(sorted, TypeScript), Join(Names(sorted), ";"),
              if hash.Some? then payloadHash else emptyHash)
  }

  lemma LowerKeepsLower(s: string)
    requires forall i :: 0 <= i < |s| ==> !('A' <= s[i] <= 'Z')
    ensures Lower(s) == s
  {}

  lemma DateGathers(date: string, token: Option<string>, hash: Option<string>)
    ensures Gathered([Pair(DATE, date)], token, hash)
         == [Pair(DATE, date)] + (if token.Some? then [Pair(TOKEN, token.value)] else [])
            + (if hash.Some? then [Pair(CONTENT_HASH, hash.value)] else [])
  {
    LowerKeepsLower(DATE);
    var dated := [Pair(DATE, date)];
    assert dated[1..] == [];
    assert LowerNames(dated) == dated;
    assert DATE[6] == 'd' && TOKEN[6] == 's' && CONTENT_HASH[6] == 'c';
    hide LowerNames;
  }

  // The two orders

  /** The UTF-16 units of a character. */
  function Units(c: char): seq<int> {
    var n := c as int;
    if n < 0x1_0000 then [n] else [0xD800 + (n - 0x1_0000) / 0x400, 0xDC00 + (n - 0x1_0000) % 0x400]
  }

  function UnitsOf(s: string): seq<int> {
    if s == "" then [] else Units(s[0]) + UnitsOf(s[1..])
  }

  predicate LessUnits(a: seq<int>, b: seq<int>) {
    b != [] && (a == [] || a[0] < b[0] || (a[0] == b[0] && LessUnits(a[1..], b[1..])))
  }

  lemma SameStart(c: char, x: seq<int>, y: seq<int>)
    ensures LessUnits(Units(c) + x, Units(c) + y) <==> LessUnits(x, y)
  {
    var u := Units(c);
    assert (u + x)[1..] == u[1..] + x && (u + y)[1..] == u[1..] + y;
    if |u| == 2 {
      assert (u[1..] + x)[1..] == x && (u[1..] + y)[1..] == y;
    } else {
      assert u[1..] + x == x && u[1..] + y == y;
    }
  }

  lemma OtherStart(c: char, d: char, x: seq<int>, y: seq<int>)
    requires c != d
    ensures LessUnits(Units(c) + x, Units(d) + y) <==> Rank(Utf16, c) < Rank(Utf16, d)
  {
    var u, v := Units(c) + x, Units(d) + y;
    if u[0] == v[0] {
      assert |Units(c)| == 2 && |Units(d)| == 2;
      assert u[1..][0] == Units(c)[1] && v[1..][0] == Units(d)[1];
    }
  }

  /** `Less` with `Utf16` compares the units of the two strings. */
  lemma {:induction false} Utf16ComparesUnits(a: string, b: string)
    ensures Less(Utf16, a, b) <==> LessUnits(UnitsOf(a), UnitsOf(b))
  {
    hide Units;
    if a != "" && b != "" {
      if a[0] == b[0] {
        SameStart(a[0], UnitsOf(a[1..]), UnitsOf(b[1..]));
        Utf16ComparesUnits(a[1..], b[1..]);
      } else {
        OtherStart(a[0], b[0], UnitsOf(a[1..]), UnitsOf(b[1..]));
      }
    } else {
      NoUnits(a);
      NoUnits(b);
    }
  }

  lemma NoUnits(s: string)
    ensures UnitsOf(s) == [] <==> s == ""
  {}

  /** Both orders put these two names the same way. */
  predicate OrderedAlike(a: string, b: string) {
    Less(CodePoints, a, b) <==> Less(Utf16, a, b)
  }

  /** No two names of the list trade places between the orders. */
  predicate SameOrder(list: seq<Pair>) {
    forall i, j :: 0 <= i < |list| && 0 <= j < |list| ==> OrderedAlike(list[i].name, list[j].name)
  }

  /** Names without characters from U+E000 on are ordered alike. */
  lemma {:induction false} PlainNamesAgree(a: string, b: string)
    requires forall k :: 0 <= k < |a| ==> a[k] as int < 0xE000
    requires forall k :: 0 <= k < |b| ==> b[k] as int < 0xE000
    ensures OrderedAlike(a, b)
  {
    if a != "" && b != "" && a[0] == b[0] {
      PlainNamesAgree(a[1..], b[1..]);
    }
  }

  lemma SortedBothWays(order: Order, other: Order, list: seq<Pair>)
    requires SameOrder(list)
    ensures SortedByName(other, StableSort(order, list))
  {
    var sorted := StableSort(order, list);
    SortSorts(order, list);
    SortKeepsPairs(order, list);
    forall i, j | 0 <= i < j < |sorted|
      ensures !Less(other, sorted[j].name, sorted[i].name)
    {
      Member(sorted, list, i);
      Member(sorted, list, j);
      var x :| 0 <= x < |list| && list[x] == sorted[i];
      var y :| 0 <= y < |list| && list[y] == sorted[j];
      assert OrderedAlike(list[y].name, list[x].name);
    }
  }

  lemma Member(a: seq<Pair>, b: seq<Pair>, i: nat)
    requires i < |a| && multiset(a) == multiset(b)
    ensures exists x :: 0 <= x < |b| && b[x] == a[i]
  {
    assert a[i] in multiset(b);
  }

  /** Both sorts hold the same pairs name by name. */
  lemma SortsAgreeByName(a: seq<Pair>)
    ensures SameByName(StableSort(CodePoints, a), StableSort(Utf16, a))
  {
    forall name
      ensures OfName(StableSort(CodePoints, a), name) == OfName(StableSort(Utf16, a), name)
    {
      SortIsStable(CodePoints, a, name);
      SortIsStable(Utf16, a, name);
    }
  }

  /** The two sorts give one list exactly when no two names trade places. */
  lemma SortsAgree(list: seq<Pair>)
    ensures StableSort(CodePoints, list) == StableSort(Utf16, list) <==> SameOrder(list)
  {
    hide StableSort, Less;
    if SameOrder(list) {
      SortedBothWays(Utf16, CodePoints, list);
      SortSorts(CodePoints, list);
      SortsAgreeByName(list);
      SortedListsEqual(CodePoints, StableSort(CodePoints, list), StableSort(Utf16, list));
    } else {
      var i, j :| 0 <= i < |list| && 0 <= j < |list| && !OrderedAlike(list[i].name, list[j].name);
      SortSorts(CodePoints, list);
      SortSorts(Utf16, list);
      SortKeepsPairs(CodePoints, list);
      var sorted := StableSort(CodePoints, list);
      if sorted == StableSort(Utf16, list) {
        Member(list, sorted, i);
        Member(list, sorted, j);
        SortedApart(sorted, list[i], list[j]);
      }
    }
  }

  /** In a list sorted both ways, two names stand as both orders say. */
  lemma SortedApart(sorted: seq<Pair>, p: Pair, q: Pair)
    requires SortedByName(CodePoints, sorted) && SortedByName(Utf16, sorted)
    requires p in sorted && q in sorted
    ensures OrderedAlike(p.name, q.name)
  {
    LessIsTotal(CodePoints, p.name, q.name);
    LessIsTotal(Utf16, p.name, q.name);
    hide Less;
  }

  // The two query strings

  /** Names that stand in opposite order differ at a character both of them have. */
  lemma {:induction false} OppositeNamesDiffer(a: string, b: string, x: string, y: string)
    requires Less(CodePoints, a, b) && Less(Utf16, b, a)
    ensures a + x != b + y
  {
    if a[0] == b[0] {
      OppositeNamesDiffer(a[1..], b[1..], x, y);
      assert (a + x)[1..] == a[1..] + x && (b + y)[1..] == b[1..] + y;
    } else {
      assert (a + x)[0] == a[0] && (b + y)[0] == b[0];
    }
  }

  /** What the two sorts leave gives different texts unless it is the same list. */
  lemma {:induction false} QueriesDiffer(a: seq<Pair>, b: seq<Pair>)
    requires SortedByName(CodePoints, a) && SortedByName(Utf16, b) && SameByName(a, b)
    ensures QueryOf(a) == QueryOf(b) ==> a == b
  {
    hide QueryOf, Less, Assignments;
    SameNamesSameHeads(a, b);
    if a != [] {
      CanonicalForm.QueryNext(a);
      CanonicalForm.QueryNext(b);
      if a[0] == b[0] {
        forall name
          ensures OfName(a[1..], name) == OfName(b[1..], name)
        {
          assert OfName(a, name) == OfName(b, name);
          Tails(a, b, name);
        }
        SameNamesSameHeads(a[1..], b[1..]);
        QueriesDiffer(a[1..], b[1..]);
        assert |a| == 1 <==> |b| == 1;
        if QueryOf(a) == QueryOf(b) {
          SameTexts(Assignment(a[0]), QueryOf(a[1..]), QueryOf(b[1..]), |a| == 1);
        }
        assert a == [a[0]] + a[1..] && b == [b[0]] + b[1..];
      } else {
        var x := "=" + a[0].value + (if |a| == 1 then "" else "&" + QueryOf(a[1..]));
        var y := "=" + b[0].value + (if |b| == 1 then "" else "&" + QueryOf(b[1..]));
        OppositeNamesDiffer(a[0].name, b[0].name, x, y);
        assert QueryOf(a) == a[0].name + x && QueryOf(b) == b[0].name + y;
      }
    }
  }

  lemma SameTexts(s: string, x: string, y: string, last: bool)
    requires s + (if last then "" else "&" + x) == s + (if last then "" else "&" + y)
    ensures last || x == y
  {
    if !last {
      assert (s + ("&" + x))[|s| + 1..] == x && (s + ("&" + y))[|s| + 1..] == y;
    }
  }

  /** Sorted by different orders, both lists are empty or not, and different heads stand in opposite order. */
  lemma SameNamesSameHeads(a: seq<Pair>, b: seq<Pair>)
    requires SortedByName(CodePoints, a) && SortedByName(Utf16, b) && SameByName(a, b)
    ensures a == [] <==> b == []
    ensures a != [] && a[0] != b[0] ==> Less(CodePoints, a[0].name, b[0].name) && Less(Utf16, b[0].name, a[0].name)
  {
    hide Less;
    if a != [] {
      OfNameMembers(a, a[0].name, a[0]);
      OfNameMembers(b, a[0].name, a[0]);
      assert OfName(a, a[0].name) == OfName(b, a[0].name);
    }
    if b != [] {
      OfNameMembers(b, b[0].name, b[0]);
      OfNameMembers(a, b[0].name, b[0]);
      assert OfName(a, b[0].name) == OfName(b, b[0].name);
    }
    if a != [] && b != [] {
      HeadIsLeast(CodePoints, a, b[0]);
      HeadIsLeast(Utf16, b, a[0]);
      LessIsTotal(CodePoints, a[0].name, b[0].name);
      LessIsTotal(Utf16, a[0].name, b[0].name);
      if a[0].name == b[0].name {
        assert a[0] == OfName(a, a[0].name)[0] && b[0] == OfName(b, a[0].name)[0];
      }
    }
  }

  /** The two services write the same query exactly when no two names trade places. */
  lemma QueriesAgree(query: seq<Pair>)
    ensures QueryText(Utf16, query) == CanonicalQuery(query) <==> SameOrder(query)
  {
    hide StableSort, SameOrder, Join, Assignments;
    SortsAgree(query);
    SortSorts(CodePoints, query);
    SortSorts(Utf16, query);
    SortsAgreeByName(query);
    QueriesDiffer(StableSort(CodePoints, query), StableSort(Utf16, query));
  }

  /** A fullwidth exclamation mark and an emoji trade places. */
  lemma QueriesDisagree()
    ensures var q := [Pair("\U{FF01}", ""), Pair("\U{1F600}", "")];
            CanonicalQuery(q) == "\U{FF01}=&\U{1F600}=" && QueryText(Utf16, q) == "\U{1F600}=&\U{FF01}="
  {
    var a, b := Pair("\U{FF01}", ""), Pair("\U{1F600}", "");
    assert Less(CodePoints, a.name, b.name) && Less(Utf16, b.name, a.name);
    LessIsTotal(Utf16, a.name, b.name);
    CanonicalForm.SortTwo(CodePoints, a, b);
    CanonicalForm.SortTwo(Utf16, a, b);
    hide StableSort, Less;
    CanonicalForm.TwoAssignments(a, b);
    CanonicalForm.TwoAssignments(b, a);
  }

  // The two services

  lemma AsciiNamesAgree(a: string, b: string)
    requires a == DATE || a == TOKEN || a == CONTENT_HASH
    requires b == DATE || b == TOKEN || b == CONTENT_HASH
    ensures OrderedAlike(a, b)
  {
    hide OrderedAlike;
    PlainNamesAgree(a, b);
  }

  lemma HeadersSortAlike(date: string, token: Option<string>, hash: Option<string>)
    ensures StableSort(Utf16, OlderHeaders(date, token, hash))
         == StableSort(CodePoints, OlderHeaders(date, token, hash))
  {
    hide StableSort, Less;
    var list := OlderHeaders(date, token, hash);
    assert forall i :: 0 <= i < |list| ==>
      list[i].name == DATE || list[i].name == TOKEN || list[i].name == CONTENT_HASH;
    forall i, j | 0 <= i < |list| && 0 <= j < |list|
      ensures OrderedAlike(list[i].name, list[j].name)
    {
      AsciiNamesAgree(list[i].name, list[j].name);
    }
    SortsAgree(list);
  }

  // The trimmed values

  predicate StripsAlike(s: string) {
    Strip(s, Rust) == Strip(s, TypeScript)
  }

  /** Header names as the services write them. */
  predicate SolidName(name: string) {
    name == DATE || name == TOKEN || name == CONTENT_HASH
  }

  lemma BlockIsSolid(list: seq<Pair>, d: Dialect)
    requires forall i :: 0 <= i < |list| ==> SolidName(list[i].name)
    ensures Solid(HeaderBlock(list, d))
  {
    if list != [] {
      assert SolidName(list[0].name);
      assert HeaderBlock(list, d)[0] == 'x';
    }
  }

  lemma BlockNext(list: seq<Pair>, d: Dialect)
    requires list != []
    ensures HeaderBlock(list, d)
         == list[0].name + ":" + (Strip(list[0].value, d) + "\n" + HeaderBlock(list[1..], d))
  {
    hide Strip;
  }

  lemma SamePrefix(a: string, x: string, y: string)
    ensures a + x == a + y <==> x == y
  {
    assert (a + x)[|a|..] == x && (a + y)[|a|..] == y;
  }

  /** The header blocks agree exactly if both languages trim every value alike. */
  lemma {:induction false} BlocksAgree(list: seq<Pair>)
    requires forall i :: 0 <= i < |list| ==> SolidName(list[i].name)
    ensures HeaderBlock(list, Rust) == HeaderBlock(list, TypeScript)
       <==> forall i :: 0 <= i < |list| ==> StripsAlike(list[i].value)
  {
    hide HeaderBlock, SolidName, Solid, Strip;
    if list == [] {
      NoBlock();
    } else {
      var p, rest := list[0], list[1..];
      BlocksAgree(rest);
      BlockIsSolid(rest, Rust);
      BlockIsSolid(rest, TypeScript);
      BlockNext(list, Rust);
      BlockNext(list, TypeScript);
      var x, y := HeaderBlock(rest, Rust), HeaderBlock(rest, TypeScript);
      var u, v := Strip(p.value, Rust), Strip(p.value, TypeScript);
      SamePrefix(p.name + ":", u + "\n" + x, v + "\n" + y);
      if u == v {
        SamePrefix(u + "\n", x, y);
        assert forall i :: 0 < i < |list| ==> list[i] == rest[i - 1];
      } else {
        StripsDiffer(p.value, x, y);
      }
    }
  }

  lemma NoBlock()
    ensures HeaderBlock([], Rust) == HeaderBlock([], TypeScript)
  {}

  /** Sorting does not change whether all values are trimmed alike. */
  lemma SortedBlocksAgree(list: seq<Pair>)
    requires forall i :: 0 <= i < |list| ==> SolidName(list[i].name)
    ensures var sorted := StableSort(CodePoints, list);
            HeaderBlock(sorted, Rust) == HeaderBlock(sorted, TypeScript)
            <==> forall i :: 0 <= i < |list| ==> StripsAlike(list[i].value)
  {
    hide HeaderBlock, SolidName, StripsAlike, StableSort;
    var sorted := StableSort(CodePoints, list);
    SortKeepsPairs(CodePoints, list);
    forall i | 0 <= i < |sorted|
      ensures exists j :: 0 <= j < |list| && list[j] == sorted[i]
    {
      Member(sorted, list, i);
    }
    forall i | 0 <= i < |list|
      ensures exists j :: 0 <= j < |sorted| && sorted[j] == list[i]
    {
      Member(list, sorted, i);
    }
    BlocksAgree(sorted);
  }

  /** The values that go into the headers. */
  ghost predicate ValuesAlike(date: string, token: Option<string>, hash: Option<string>) {
    StripsAlike(date) && (token.Some? ==> StripsAlike(token.value)) && (hash.Some? ==> StripsAlike(hash.value))
  }

  lemma OlderBlocksAgree(date: string, token: Option<string>, hash: Option<string>)
    ensures var sorted := StableSort(CodePoints, OlderHeaders(date, token, hash));
            token != Some("") ==>
            (HeaderBlock(sorted, Rust) == HeaderBlock(sorted, TypeScript) <==> ValuesAlike(date, token, hash))
  {
    hide HeaderBlock, StripsAlike, StableSort;
    var list := OlderHeaders(date, token, hash);
    SortedBlocksAgree(list);
    assert list[0].value == date;
    assert token.Some? && token.value != "" ==> list[1].value == token.value;
    assert hash.Some? ==> list[|list| - 1].value == hash.value;
  }

  /** For a request that signs only its date, the two services build the same canonical request exactly when
      the token is not the empty string, which the older service leaves out and the gateway signs, no two query
      names trade places, and both languages trim the header values alike. */
  lemma ServicesAgree(verb: string, path: string, query: seq<Pair>, date: string, token: Option<string>,
                      payload: string, hash: string, empty: string)
    ensures Canonical(verb, path, query, [Pair(DATE, date)], token, payload, hash, empty)
         == OlderCanonical(verb, path, query, date, token, payload, hash, empty)
       <==> token != Some("") && SameOrder(query)
            && ValuesAlike(date, token, if HasPayload(verb, payload) then Some(hash) else None)
  {
    hide HasPayload, StableSort, HeaderBlock, Join, CanonicalQuery, QueryText, Gathered, Names, SameOrder, ValuesAlike;
    var h := if HasPayload(verb, payload) then Some(hash) else None;
    DateGathers(date, token, h);
    QueriesAgree(query);
    HeadersSortAlike(date, token, h);
    OlderBlocksAgree(date, token, h);
    var mine, theirs := Gathered([Pair(DATE, date)], token, h), OlderHeaders(date, token, h);
    if token == Some("") {
      var rest := if h.Some? then [Pair(CONTENT_HASH, hash)] else [];
      assert theirs == [Pair(DATE, date)] + rest;
      MoreNames([Pair(DATE, date)], Pair(TOKEN, ""), rest);
    } else {
      assert mine == theirs;
    }
  }

  /** A mark that JavaScript trims and Rust keeps. */
  lemma TrimsDiffer()
    ensures !StripsAlike("\U{FEFF}x")
  {
    var s := "\U{FEFF}x";
    assert StripStart(s, Rust) == s;
    assert s[1..] == "x" && StripStart(s, TypeScript) == "x";
    assert Strip(s, Rust) == s && Strip(s, TypeScript) == "x";
  }

  // The signed names

  function NamesLength(list: seq<Pair>): nat {
    if list == [] then 0 else |list[0].name| + 1 + NamesLength(list[1..])
  }

  lemma {:induction false} InsertedLength(list: seq<Pair>, p: Pair)
    ensures NamesLength(Insert(CodePoints, p, list)) == NamesLength(list) + |p.name| + 1
  {
    if list != [] && Less(CodePoints, list[0].name, p.name) {
      InsertedLength(list[1..], p);
      assert Insert(CodePoints, p, list)[1..] == Insert(CodePoints, p, list[1..]);
    } else {
      assert Insert(CodePoints, p, list)[1..] == list;
    }
  }

  lemma {:induction false} SortedLength(list: seq<Pair>)
    ensures NamesLength(StableSort(CodePoints, list)) == NamesLength(list)
  {
    if list != [] {
      SortedLength(list[1..]);
      InsertedLength(StableSort(CodePoints, list[1..]), list[0]);
    }
  }

  lemma {:induction false} LengthsJoin(a: seq<Pair>, b: seq<Pair>)
    ensures NamesLength(a + b) == NamesLength(a) + NamesLength(b)
  {
    if a == [] {
      assert a + b == b;
    } else {
      assert (a + b)[1..] == a[1..] + b;
      LengthsJoin(a[1..], b);
    }
  }

  lemma {:induction false} JoinedLength(list: seq<Pair>)
    requires list != []
    ensures |Join(Names(list), ";")| + 1 == NamesLength(list)
  {
    if |list| > 1 {
      JoinedLength(list[1..]);
      assert Names(list)[1..] == Names(list[1..]);
    } else {
      assert list[1..] == [];
    }
  }

  lemma LengthOne(p: Pair)
    ensures NamesLength([p]) == |p.name| + 1
  {
    assert [p][1..] == [] && NamesLength([]) == 0;
  }

  lemma SortedIsNotEmpty(list: seq<Pair>)
    requires list != []
    ensures StableSort(CodePoints, list) != []
  {}

  /** One more header makes a longer list of signed names. */
  lemma MoreNames(a: seq<Pair>, p: Pair, b: seq<Pair>)
    requires a != []
    ensures Join(Names(StableSort(CodePoints, a + [p] + b)), ";") != Join(Names(StableSort(CodePoints, a + b)), ";")
  {
    hide StableSort, NamesLength, Join, Names;
    SortedIsNotEmpty(a + [p] + b);
    SortedIsNotEmpty(a + b);
    SortedLength(a + [p] + b);
    SortedLength(a + b);
    LengthsJoin(a + [p], b);
    LengthsJoin(a, [p]);
    LengthsJoin(a, b);
    LengthOne(p);
    JoinedLength(StableSort(CodePoints, a + [p] + b));
    JoinedLength(StableSort(CodePoints, a + b));
  }
}
