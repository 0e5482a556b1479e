/** The canonical request of AWS Signature Version 4, as the gateway and the older service build it.
    The digests of the payload and of the empty string are given. */
module SigV4 {
  import opened Text
  import opened Blanks
  import opened Wrappers

  /** A query parameter or a header. */
  datatype Pair = Pair(name: string, value: string)

  const DATE := "x-amz-date"
  const TOKEN := "x-amz-security-token"
  const CONTENT_HASH := "x-amz-content-sha256"

  // Sorting by name

  /** Rust compares the UTF-8 bytes of two strings, which orders them by code points; the older service
      compares UTF-16 units, where a surrogate pair comes before the characters from U+E000 to U+FFFF. */
  datatype Order = CodePoints | Utf16

  function Rank(order: Order, c: char): int {
    if order.Utf16? && 0xE000 <= c as int <= 0xFFFF then c as int + 0x11_0000 else c as int
  }

  predicate Less(order: Order, a: string, b: string) {
    b != "" && (a == "" || Rank(order, a[0]) < Rank(order, b[0]) || (a[0] == b[0] && Less(order, a[1..], b[1..])))
  }

  /** Before everything that is not less than it: among equals, the first stays first. */
  function Insert(order: Order, p: Pair, list: seq<Pair>): seq<Pair> {
    if list == [] then [p]
    else if Less(order, list[0].name, p.name) then [list[0]] + Insert(order, p, list[1..])
    else [p] + list
  }

  /** `sort_by` on the names, which is stable. */
  function StableSort(order: Order, list: seq<Pair>): seq<Pair> {
    if list == [] then [] else Insert(order, list[0], StableSort(order, list[1..]))
  }

  // The request

  function UpperChar(c: char): char {
    if 'a' <= c <= 'z' then c - 32 as char else c
  }

  function Upper(s: string): string {
    seq(|s|, i requires 0 <= i < |s| => UpperChar(s[i]))
  }

  predicate Named(list: seq<Pair>, name: string) {
    exists i :: 0 <= i < |list| && list[i].name == name
  }

  function LowerNames(list: seq<Pair>): seq<Pair> {
    if list == [] then [] else [Pair(Lower(list[0].name), list[0].value)] + LowerNames(list[1..])
  }

  function PushedIfAbsent(list: seq<Pair>, p: Pair): seq<Pair> {
    if Named(list, p.name) then list else list + [p]
  }

  predicate HasPayload(verb: string, payload: string) {
    Upper(verb) == "POST" && payload != ""
  }

  /** The headers to sign, before sorting. */
  function Gathered(headers: seq<Pair>, token: Option<string>, hash: Option<string>): seq<Pair> {
    var lower := LowerNames(headers);
    var withToken := if token.Some? then PushedIfAbsent(lower, Pair(TOKEN, token.value)) else lower;
    if hash.Some? then PushedIfAbsent(withToken, Pair(CONTENT_HASH, hash.value)) else withToken
  }

  /** Each service trims the value as its language does. */
  function Line(p: Pair, d: Dialect): string {
    p.name + ":" + Strip(p.value, d) + "\n"
  }

  function HeaderBlock(list: seq<Pair>, d: Dialect): string {
    if list == [] then "" else Line(list[0], d) + HeaderBlock(list[1..], d)
  }

  function Names(list: seq<Pair>): seq<string> {
    if list == [] then [] else [list[0].name] + Names(list[1..])
  }

  function Assignment(p: Pair): string {
    p.name + "=" + p.value
  }

  function Assignments(list: seq<Pair>): seq<string> {
    if list == [] then [] else [Assignment(list[0])] + Assignments(list[1..])
  }

  function Join(parts: seq<string>, separator: string): string {
    if parts == [] then ""
    else if |parts| == 1 then parts[0]
    else parts[0] + separator + Join(parts[1..], separator)
  }

  function QueryOf(list: seq<Pair>): string {
    Join(Assignments(list), "&")
  }

  function QueryText(order: Order, query: seq<Pair>): string {
    QueryOf(StableSort(order, query))
  }

  function CanonicalQuery(query: seq<Pair>): string {
    QueryText(CodePoints, query)
  }

  datatype Request = Request(query: string, headers: string, signed: string, text: string)

  function Assembled(verb: string, path: string, query: string, headers: string, signed: string,
                     hash: string): Request {
    Request(query, headers, signed,
            Upper(verb) + "\n" + path + "\n" + query + "\n" + headers + "\n" + signed + "\n" + hash)
  }

  function Canonical(verb: string, path: string, query: seq<Pair>, headers: seq<Pair>, token: Option<string>,
                     payload: string, payloadHash: string, emptyHash: string): Request {
    var hash := if HasPayload(verb, payload) then Some(payloadHash) else None;
    var sorted := StableSort(CodePoints, Gathered(headers, token, hash));
    Assembled(verb, path, CanonicalQuery(query), HeaderBlock(sorted, Rust), Join(Names(sorted), ";"),
              if hash.Some? then payloadHash else emptyHash)
  }

  method Aws4CanonicalRequest(verb: string, path: string, query: seq<Pair>, headers: seq<Pair>, token: Option<string>,
                              payload: string, payloadHash: string, emptyHash: string) returns (request: Request)
    ensures request == Canonical(verb, path, query, headers, token, payload, payloadHash, emptyHash)
  {
    hide StableSort, LowerNames, Names, Join, Assignments, HeaderBlock, Upper;
    var queryPairs := query;
    queryPairs := StableSort(CodePoints, queryPairs);
    var canonicalQuery := Join(Assignments(queryPairs), "&");
    var signHeaders := LowerNames(headers);
    if token.Some? {
      if !Named(signHeaders, TOKEN) {
        signHeaders := signHeaders + [Pair(TOKEN, token.value)];
      }
    }
    var hash := emptyHash;
    if Upper(verb) == "POST" && payload != "" {
      hash := payloadHash;
      if !Named(signHeaders, CONTENT_HASH) {
        signHeaders := signHeaders + [Pair(CONTENT_HASH, payloadHash)];
      }
    }
    signHeaders := StableSort(CodePoints, signHeaders);
    var signedHeaders := Join(Names(signHeaders), ";");
    var canonicalHeaders := HeaderBlock(signHeaders, Rust);
    request := Assembled(verb, path, canonicalQuery, canonicalHeaders, signedHeaders, hash);
  }

  // The sort

  lemma {:induction false} LessIsTransitive(order: Order, a: string, b: string, c: string)
    requires Less(order, a, b) && Less(order, b, c)
    ensures Less(order, a, c)
  {
    if a != "" && a[0] == b[0] == c[0] {
      LessIsTransitive(order, a[1..], b[1..], c[1..]);
    }
  }

  lemma {:induction false} LessIsTotal(order: Order, a: string, b: string)
    ensures Less(order, a, b) || a == b || Less(order, b, a)
    ensures !(Less(order, a, b) && Less(order, b, a)) && !(a == b && Less(order, a, b))
  {
    if a != "" && b != "" && a[0] == b[0] {
      LessIsTotal(order, a[1..], b[1..]);
      assert a == [a[0]] + a[1..] && b == [b[0]] + b[1..];
    }
  }

  ghost predicate SortedByName(order: Order, list: seq<Pair>) {
    forall i, j :: 0 <= i < j < |list| ==> !Less(order, list[j].name, list[i].name)
  }

  /** The pairs of one name, in order. */
  function OfName(list: seq<Pair>, name: string): seq<Pair> {
    if list == [] then [] else (if list[0].name == name then [list[0]] else []) + OfName(list[1..], name)
  }

  lemma {:induction false} InsertKeepsOrder(order: Order, p: Pair, list: seq<Pair>, name: string)
    ensures OfName(Insert(order, p, list), name) == (if p.name == name then [p] else []) + OfName(list, name)
  {
    if list != [] && Less(order, list[0].name, p.name) {
      LessIsTotal(order, list[0].name, p.name);
      InsertKeepsOrder(order, p, list[1..], name);
      assert Insert(order, p, list)[1..] == Insert(order, p, list[1..]);
    } else {
      assert Insert(order, p, list)[1..] == list;
    }
  }

  /** Stable: the pairs of a name keep their order. */
  lemma {:induction false} SortIsStable(order: Order, list: seq<Pair>, name: string)
    ensures OfName(StableSort(order, list), name) == OfName(list, name)
  {
    if list != [] {
      SortIsStable(order, list[1..], name);
      InsertKeepsOrder(order, list[0], StableSort(order, list[1..]), name);
    }
  }

  lemma {:induction false} InsertMembers(order: Order, p: Pair, list: seq<Pair>)
    ensures multiset(Insert(order, p, list)) == multiset{p} + multiset(list)
  {
    if list != [] && Less(order, list[0].name, p.name) {
      InsertMembers(order, p, list[1..]);
      assert list == [list[0]] + list[1..];
    }
  }

  lemma {:induction false} SortKeepsPairs(order: Order, list: seq<Pair>)
    ensures multiset(StableSort(order, list)) == multiset(list)
  {
    if list != [] {
      SortKeepsPairs(order, list[1..]);
      InsertMembers(order, list[0], StableSort(order, list[1..]));
      assert list == [list[0]] + list[1..];
    }
  }

  lemma NotLessTransitive(order: Order, a: string, b: string, c: string)
    requires !Less(order, b, a) && !Less(order, c, b)
    ensures !Less(order, c, a)
  {
    LessIsTotal(order, a, b);
    LessIsTotal(order, b, c);
    LessIsTotal(order, a, c);
    if Less(order, a, b) && Less(order, b, c) {
      LessIsTransitive(order, a, b, c);
    }
  }

  lemma ConsSorted(order: Order, p: Pair, list: seq<Pair>)
    requires SortedByName(order, list) && (list != [] ==> !Less(order, list[0].name, p.name))
    ensures SortedByName(order, [p] + list)
  {
    var all := [p] + list;
    forall i, j | 0 <= i < j < |all|
      ensures !Less(order, all[j].name, all[i].name)
    {
      if i == 0 && j > 1 {
        NotLessTransitive(order, p.name, list[0].name, list[j - 1].name);
      }
    }
  }

  lemma {:induction false} InsertSorts(order: Order, p: Pair, list: seq<Pair>)
    requires SortedByName(order, list)
    ensures SortedByName(order, Insert(order, p, list))
    ensures Insert(order, p, list)[0] == p || (list != [] && Insert(order, p, list)[0] == list[0])
  {
    if list != [] && Less(order, list[0].name, p.name) {
      LessIsTotal(order, list[0].name, p.name);
      InsertSorts(order, p, list[1..]);
      ConsSorted(order, list[0], Insert(order, p, list[1..]));
    } else {
      ConsSorted(order, p, list);
    }
  }

  lemma {:induction false} SortSorts(order: Order, list: seq<Pair>)
    ensures SortedByName(order, StableSort(order, list))
  {
    if list != [] {
      SortSorts(order, list[1..]);
      InsertSorts(order, list[0], StableSort(order, list[1..]));
    }
  }

  lemma {:induction false} OfNameMembers(list: seq<Pair>, name: string, p: Pair)
    ensures p in OfName(list, name) <==> p in list && p.name == name
  {
    if list != [] {
      OfNameMembers(list[1..], name, p);
      assert p in list <==> p == list[0] || p in list[1..];
    }
  }

  lemma HeadIsLeast(order: Order, list: seq<Pair>, p: Pair)
    requires SortedByName(order, list) && p in list
    ensures !Less(order, p.name, list[0].name)
  {
    LessIsTotal(order, p.name, p.name);
  }

  /** Name by name, the same pairs in the same order. */
  ghost predicate SameByName(a: seq<Pair>, b: seq<Pair>) {
    forall name :: OfName(a, name) == OfName(b, name)
  }

  /** A sorted list is determined by what it holds under each name. */
  lemma {:induction false} SortedListsEqual(order: Order, a: seq<Pair>, b: seq<Pair>)
    requires SortedByName(order, a) && SortedByName(order, b)
    requires SameByName(a, b)
    ensures a == b
  {
    if a == [] {
      assert b != [] ==> OfName(b, b[0].name) == OfName(a, b[0].name);
    } else {
      OfNameMembers(a, a[0].name, a[0]);
      OfNameMembers(b, a[0].name, a[0]);
      assert OfName(a, a[0].name) == OfName(b, a[0].name);
      assert b != [];
      OfNameMembers(b, b[0].name, b[0]);
      OfNameMembers(a, b[0].name, b[0]);
      assert OfName(a, b[0].name) == OfName(b, b[0].name);
      HeadIsLeast(order, a, b[0]);
      HeadIsLeast(order, b, a[0]);
      LessIsTotal(order, a[0].name, b[0].name);
      assert a[0].name == b[0].name;
      assert a[0] == OfName(a, a[0].name)[0] == OfName(b, a[0].name)[0] == b[0];
      forall name
        ensures OfName(a[1..], name) == OfName(b[1..], name)
      {
        assert OfName(a, name) == OfName(b, name);
        Tails(a, b, name);
      }
      SortedListsEqual(order, a[1..], b[1..]);
      assert a == [a[0]] + a[1..] && b == [b[0]] + b[1..];
    }
  }

  lemma Tails(a: seq<Pair>, b: seq<Pair>, name: string)
    requires a != [] && b != [] && a[0] == b[0] && OfName(a, name) == OfName(b, name)
    ensures OfName(a[1..], name) == OfName(b[1..], name)
  {
    if a[0].name == name {
      assert OfName(a, name)[1..] == OfName(a[1..], name);
      assert OfName(b, name)[1..] == OfName(b[1..], name);
    } else {
      assert OfName(a, name) == OfName(a[1..], name) && OfName(b, name) == OfName(b[1..], name);
    }
  }

  /** Two lists sort to the same list exactly when, name by name, they hold the same pairs in the same
      order. */
  lemma SortDependsOn(order: Order, a: seq<Pair>, b: seq<Pair>)
    ensures StableSort(order, a) == StableSort(order, b) <==> SameByName(a, b)
  {
    if StableSort(order, a) == StableSort(order, b) {
      forall name
        ensures OfName(a, name) == OfName(b, name)
      {
        SortIsStable(order, a, name);
        SortIsStable(order, b, name);
      }
    } else if SameByName(a, b) {
      SortSorts(order, a);
      SortSorts(order, b);
      forall name
        ensures OfName(StableSort(order, a), name) == OfName(StableSort(order, b), name)
      {
        SortIsStable(order, a, name);
        SortIsStable(order, b, name);
        assert OfName(a, name) == OfName(b, name);
      }
      SortedListsEqual(order, StableSort(order, a), StableSort(order, b));
    }
  }

  ghost predicate DistinctNames(list: seq<Pair>) {
    forall i, j :: 0 <= i < j < |list| ==> list[i].name != list[j].name
  }

  lemma {:induction false} OfNameCounts(list: seq<Pair>, name: string, p: Pair)
    requires p.name == name
    ensures multiset(OfName(list, name))[p] == multiset(list)[p]
  {
    if list != [] {
      OfNameCounts(list[1..], name, p);
      assert list == [list[0]] + list[1..];
    }
  }

  lemma {:induction false} AtMostOne(list: seq<Pair>, name: string)
    requires DistinctNames(list)
    ensures |OfName(list, name)| <= 1
  {
    if list != [] {
      AtMostOne(list[1..], name);
      if list[0].name == name && OfName(list[1..], name) != [] {
        var p := OfName(list[1..], name)[0];
        OfNameMembers(list[1..], name, p);
        assert false;
      }
    }
  }

  lemma ShortListsEqual(x: seq<Pair>, y: seq<Pair>)
    requires multiset(x) == multiset(y) && |x| <= 1
    ensures x == y
  {
    assert |x| == |multiset(x)| == |y|;
    if |x| == 1 {
      assert x[0] in multiset(y);
    }
  }

  lemma SameOfName(a: seq<Pair>, b: seq<Pair>, name: string)
    requires multiset(a) == multiset(b) && DistinctNames(a)
    ensures OfName(a, name) == OfName(b, name)
  {
    var x, y := OfName(a, name), OfName(b, name);
    AtMostOne(a, name);
    forall p: Pair
      ensures multiset(x)[p] == multiset(y)[p]
    {
      if p.name == name {
        OfNameCounts(a, name, p);
        OfNameCounts(b, name, p);
      } else {
        OfNameMembers(a, name, p);
        OfNameMembers(b, name, p);
      }
    }
    assert multiset(x) == multiset(y);
    ShortListsEqual(x, y);
  }

  /** Rearranging pairs with distinct names does not change the sorted list. */
  lemma SortForgetsOrder(order: Order, a: seq<Pair>, b: seq<Pair>)
    requires multiset(a) == multiset(b) && DistinctNames(a)
    ensures StableSort(order, a) == StableSort(order, b)
  {
    forall name
      ensures OfName(a, name) == OfName(b, name)
    {
      SameOfName(a, b, name);
    }
    SortDependsOn(order, a, b);
  }
}
