/** What makes the canonical request canonical: it forgets the order of its inputs, and can be read back. */
module CanonicalForm {
  import opened Text
  import opened Blanks
  import opened Wrappers
  import opened SigV4

  // Order does not matter

  function LowerName(p: Pair): Pair {
    Pair(Lower(p.name), p.value)
  }

  lemma {:induction false} LowerNamesJoin(a: seq<Pair>, b: seq<Pair>)
    ensures LowerNames(a + b) == LowerNames(a) + LowerNames(b)
  {
    if a == [] {
      assert a + b == b;
    } else {
      assert (a + b)[1..] == a[1..] + b;
      LowerNamesJoin(a[1..], b);
    }
  }

  lemma LowerNamesOne(p: Pair)
    ensures LowerNames([p]) == [LowerName(p)]
  {
    assert [p][1..] == [];
  }

  function Without(list: seq<Pair>, i: nat): seq<Pair>
    requires i < |list|
  {
    list[..i] + list[i + 1..]
  }

  lemma WithoutOne(list: seq<Pair>, i: nat)
    requires i < |list|
    ensures multiset(Without(list, i)) == multiset(list) - multiset{list[i]}
  {
    assert list == list[..i] + [list[i]] + list[i + 1..];
  }

  lemma LowerNamesWithoutOne(list: seq<Pair>, i: nat)
    requires i < |list|
    ensures multiset(LowerNames(list)) == multiset{LowerName(list[i])} + multiset(LowerNames(Without(list, i)))
  {
    hide LowerNames, LowerName;
    var x, p, y := list[..i], list[i], list[i + 1..];
    assert list == x + ([p] + y);
    LowerNamesJoin(x, [p] + y);
    LowerNamesJoin([p], y);
    LowerNamesJoin(x, y);
    LowerNamesOne(p);
  }

  lemma {:induction false} LowerNamesForgetOrder(a: seq<Pair>, b: seq<Pair>)
    requires multiset(a) == multiset(b)
    ensures multiset(LowerNames(a)) == multiset(LowerNames(b))
    decreases |multiset(a)|
  {
    if a == [] {
      assert |multiset(b)| == 0;
      assert b == [];
    } else {
      hide LowerNames, LowerName, Without;
      assert a[0] in multiset(b);
      var i :| 0 <= i < |b| && b[i] == a[0];
      WithoutOne(a, 0);
      WithoutOne(b, i);
      LowerNamesForgetOrder(Without(a, 0), Without(b, i));
      LowerNamesWithoutOne(a, 0);
      LowerNamesWithoutOne(b, i);
    }
  }

  lemma NamedForgetsOrder(a: seq<Pair>, b: seq<Pair>, name: string)
    requires multiset(a) == multiset(b)
    ensures Named(a, name) <==> Named(b, name)
  {
    if Named(a, name) {
      var i :| 0 <= i < |a| && a[i].name == name;
      assert a[i] in multiset(b);
      var j :| 0 <= j < |b| && b[j] == a[i];
    }
    if Named(b, name) {
      var i :| 0 <= i < |b| && b[i].name == name;
      assert b[i] in multiset(a);
      var j :| 0 <= j < |a| && a[j] == b[i];
    }
  }

  lemma PushedForgetsOrder(a: seq<Pair>, b: seq<Pair>, p: Pair)
    requires multiset(a) == multiset(b)
    ensures multiset(PushedIfAbsent(a, p)) == multiset(PushedIfAbsent(b, p))
  {
    NamedForgetsOrder(a, b, p.name);
  }

  lemma GatheredForgetsOrder(a: seq<Pair>, b: seq<Pair>, token: Option<string>, hash: Option<string>)
    requires multiset(a) == multiset(b)
    ensures multiset(Gathered(a, token, hash)) == multiset(Gathered(b, token, hash))
  {
    hide PushedIfAbsent, LowerNames;
    LowerNamesForgetOrder(a, b);
    var x, y := LowerNames(a), LowerNames(b);
    if token.Some? {
      PushedForgetsOrder(x, y, Pair(TOKEN, token.value));
      x, y := PushedIfAbsent(x, Pair(TOKEN, token.value)), PushedIfAbsent(y, Pair(TOKEN, token.value));
    }
    if hash.Some? {
      PushedForgetsOrder(x, y, Pair(CONTENT_HASH, hash.value));
    }
  }

  lemma PushedStaysDistinct(list: seq<Pair>, p: Pair)
    requires DistinctNames(list)
    ensures DistinctNames(PushedIfAbsent(list, p))
  {}

  lemma GatheredDistinct(headers: seq<Pair>, token: Option<string>, hash: Option<string>)
    requires DistinctNames(LowerNames(headers))
    ensures DistinctNames(Gathered(headers, token, hash))
  {
    hide PushedIfAbsent, LowerNames, DistinctNames;
    var x := LowerNames(headers);
    if token.Some? {
      PushedStaysDistinct(x, Pair(TOKEN, token.value));
      x := PushedIfAbsent(x, Pair(TOKEN, token.value));
    }
    if hash.Some? {
      PushedStaysDistinct(x, Pair(CONTENT_HASH, hash.value));
    }
  }

  /** Rearranging the query parameters (with distinct names) and the headers (with names that differ in
      more than case) leaves the canonical request as it is. */
  lemma RequestForgetsOrder(verb: string, path: string, query: seq<Pair>, query': seq<Pair>, headers: seq<Pair>,
                            headers': seq<Pair>, token: Option<string>, payload: string, hash: string, empty: string)
    requires multiset(query) == multiset(query') && DistinctNames(query)
    requires multiset(headers) == multiset(headers') && DistinctNames(LowerNames(headers))
    ensures Canonical(verb, path, query, headers, token, payload, hash, empty)
         == Canonical(verb, path, query', headers', token, payload, hash, empty)
  {
    hide HasPayload, Gathered, StableSort, DistinctNames, LowerNames;
    var h := if HasPayload(verb, payload) then Some(hash) else None;
    SortForgetsOrder(CodePoints, query, query');
    GatheredForgetsOrder(headers, headers', token, h);
    GatheredDistinct(headers, token, h);
    SortForgetsOrder(CodePoints, Gathered(headers, token, h), Gathered(headers', token, h));
  }

  /** With a repeated parameter the order does matter: values are not sorted. */
  lemma RepeatedNameKeepsOrder()
    ensures var a, b := Pair("k", "1"), Pair("k", "2");
            StableSort(CodePoints, [a, b]) == [a, b] && StableSort(CodePoints, [b, a]) == [b, a]
  {
    var a, b := Pair("k", "1"), Pair("k", "2");
    LessIsTotal(CodePoints, "k", "k");
    assert [a, b][1..] == [b] && [b, a][1..] == [a] && [a][1..] == [] && [b][1..] == [];
    assert StableSort(CodePoints, [b]) == [b] && StableSort(CodePoints, [a]) == [a];
  }

  // The signed headers

  lemma {:induction false} NamesAt(list: seq<Pair>, i: nat)
    requires i < |list|
    ensures |Names(list)| == |list| && Names(list)[i] == list[i].name
  {
    if i > 0 {
      NamesAt(list[1..], i - 1);
    } else if |list| > 1 {
      NamesAt(list[1..], 0);
    }
  }

  /** The list that both the header lines and the signed-header list are written from. */
  function Signed(verb: string, headers: seq<Pair>, token: Option<string>, payload: string, hash: string): seq<Pair> {
    StableSort(CodePoints, Gathered(headers, token, if HasPayload(verb, payload) then Some(hash) else None))
  }

  lemma SortStaysDistinct(list: seq<Pair>)
    requires DistinctNames(list)
    ensures DistinctNames(StableSort(CodePoints, list))
  {
    var sorted := StableSort(CodePoints, list);
    forall i, j | 0 <= i < j < |sorted|
      ensures sorted[i].name != sorted[j].name
    {
      SortIsStable(CodePoints, list, sorted[i].name);
      AtMostOne(list, sorted[i].name);
      TwoOfName(sorted, i, j);
    }
  }

  lemma {:induction false} TwoOfName(list: seq<Pair>, i: nat, j: nat)
    requires i < j < |list|
    ensures list[i].name == list[j].name ==> |OfName(list, list[i].name)| >= 2
    decreases |list|
  {
    if i > 0 {
      TwoOfName(list[1..], i - 1, j - 1);
    } else if list[i].name == list[j].name {
      OfNameMembers(list[1..], list[i].name, list[j]);
    }
  }

  lemma SortKeepsNames(list: seq<Pair>, name: string)
    ensures Named(StableSort(CodePoints, list), name) <==> Named(list, name)
  {
    SortKeepsPairs(CodePoints, list);
    NamedForgetsOrder(StableSort(CodePoints, list), list, name);
  }

  /** Names of the signed headers are strictly increasing; the token and the payload hash are there once
      each when they are wanted, whether or not the caller passed them. */
  lemma SignedAreStrictlySorted(verb: string, headers: seq<Pair>, token: Option<string>, payload: string, hash: string)
    requires DistinctNames(LowerNames(headers))
    ensures var names := Names(Signed(verb, headers, token, payload, hash));
            && (forall i, j :: 0 <= i < j < |names| ==> Less(CodePoints, names[i], names[j]))
            && (token.Some? || Named(LowerNames(headers), TOKEN) <==> TOKEN in names)
            && (HasPayload(verb, payload) || Named(LowerNames(headers), CONTENT_HASH) <==> CONTENT_HASH in names)
  {
    hide HasPayload, LowerNames, StableSort, Names;
    var h := if HasPayload(verb, payload) then Some(hash) else None;
    var list := Gathered(headers, token, h);
    var sorted := StableSort(CodePoints, list);
    GatheredDistinct(headers, token, h);
    SortStaysDistinct(list);
    SortSorts(CodePoints, list);
    forall i, j | 0 <= i < j < |sorted|
      ensures Less(CodePoints, sorted[i].name, sorted[j].name)
    {
      LessIsTotal(CodePoints, sorted[i].name, sorted[j].name);
    }
    NamesAre(sorted);
    SortKeepsNames(list, TOKEN);
    SortKeepsNames(list, CONTENT_HASH);
    GatheredNames(headers, token, h, TOKEN);
    GatheredNames(headers, token, h, CONTENT_HASH);
    hide Gathered, Less;
  }

  lemma NamesAre(list: seq<Pair>)
    ensures |Names(list)| == |list| && forall i :: 0 <= i < |list| ==> Names(list)[i] == list[i].name
    ensures forall name :: name in Names(list) <==> Named(list, name)
  {
    forall i | 0 <= i < |list|
      ensures |Names(list)| == |list| && Names(list)[i] == list[i].name
    {
      NamesAt(list, i);
    }
    assert list == [] ==> Names(list) == [];
    assert forall i :: 0 <= i < |list| ==> list[i].name in Names(list);
  }

  lemma PushedNames(list: seq<Pair>, p: Pair, name: string)
    ensures Named(PushedIfAbsent(list, p), name) <==> Named(list, name) || name == p.name
  {
    var pushed := list + [p];
    if Named(list, name) {
      var i :| 0 <= i < |list| && list[i].name == name;
      assert pushed[i].name == name;
    }
    assert pushed[|list|] == p;
    assert forall i :: 0 <= i < |list| ==> pushed[i] == list[i];
  }

  lemma GatheredNames(headers: seq<Pair>, token: Option<string>, hash: Option<string>, name: string)
    ensures Named(Gathered(headers, token, hash), name)
       <==> Named(LowerNames(headers), name) || (token.Some? && name == TOKEN) || (hash.Some? && name == CONTENT_HASH)
  {
    hide PushedIfAbsent, LowerNames, Named;
    var x := LowerNames(headers);
    if token.Some? {
      PushedNames(x, Pair(TOKEN, token.value), name);
      x := PushedIfAbsent(x, Pair(TOKEN, token.value));
    }
    if hash.Some? {
      PushedNames(x, Pair(CONTENT_HASH, hash.value), name);
    }
  }

  /** The hash header carries the hash that closes the request exactly when the caller did not pass a
      header of that name with another value. */
  lemma HashHeaderValue(verb: string, headers: seq<Pair>, token: Option<string>, payload: string, hash: string)
    requires DistinctNames(LowerNames(headers)) && HasPayload(verb, payload)
    ensures Pair(CONTENT_HASH, hash) in Signed(verb, headers, token, payload, hash)
       <==> (forall p: Pair :: p in LowerNames(headers) && p.name == CONTENT_HASH ==> p.value == hash)
  {
    hide HasPayload, LowerNames, StableSort;
    var list := Gathered(headers, token, Some(hash));
    SortKeepsPairs(CodePoints, list);
    var lower := LowerNames(headers);
    var before := if token.Some? then PushedIfAbsent(lower, Pair(TOKEN, token.value)) else lower;
    assert forall p: Pair :: p.name == CONTENT_HASH ==> (p in before <==> p in lower);
    assert Pair(CONTENT_HASH, hash) in StableSort(CodePoints, list) <==> Pair(CONTENT_HASH, hash) in multiset(list);
    if Named(before, CONTENT_HASH) {
      var i :| 0 <= i < |before| && before[i].name == CONTENT_HASH;
      assert before[i] in before;
      assert before[i] in lower;
      OnlyOne(lower, before[i]);
    } else {
      assert list == before + [Pair(CONTENT_HASH, hash)];
      assert list[|before|] == Pair(CONTENT_HASH, hash);
      NoneNamed(before, CONTENT_HASH);
    }
  }

  lemma NoneNamed(list: seq<Pair>, name: string)
    requires !Named(list, name)
    ensures forall p :: p in list ==> p.name != name
  {}

  lemma OnlyOne(list: seq<Pair>, p: Pair)
    requires DistinctNames(list) && p in list
    ensures forall q :: q in list && q.name == p.name ==> q == p
  {}

  /** Likewise the token header and the token. */
  lemma TokenHeaderValue(verb: string, headers: seq<Pair>, token: string, payload: string, hash: string)
    requires DistinctNames(LowerNames(headers))
    ensures Pair(TOKEN, token) in Signed(verb, headers, Some(token), payload, hash)
       <==> (forall p: Pair :: p in LowerNames(headers) && p.name == TOKEN ==> p.value == token)
  {
    hide HasPayload, LowerNames, StableSort;
    var lower := LowerNames(headers);
    var list := Gathered(headers, Some(token), if HasPayload(verb, payload) then Some(hash) else None);
    SortKeepsPairs(CodePoints, list);
    assert TOKEN[6] == 's' && CONTENT_HASH[6] == 'c';
    assert Pair(TOKEN, token) in StableSort(CodePoints, list) <==> Pair(TOKEN, token) in multiset(list);
    var pushed := PushedIfAbsent(lower, Pair(TOKEN, token));
    assert Pair(TOKEN, token) in list <==> Pair(TOKEN, token) in pushed;
    if Named(lower, TOKEN) {
      var i :| 0 <= i < |lower| && lower[i].name == TOKEN;
      assert lower[i] in lower;
      OnlyOne(lower, lower[i]);
    } else {
      assert pushed[|lower|] == Pair(TOKEN, token);
      NoneNamed(lower, TOKEN);
    }
  }

  /** Every header is signed under its name in lower case and with its own value. */
  lemma {:induction false} LowerNamesAre(headers: seq<Pair>, i: nat)
    requires i < |headers|
    ensures |LowerNames(headers)| == |headers|
    ensures var lower, given := LowerNames(headers)[i], headers[i];
            && lower.value == given.value && |lower.name| == |given.name|
            && forall k :: 0 <= k < |given.name| ==>
                 lower.name[k] as int == given.name[k] as int + (if 'A' <= given.name[k] <= 'Z' then 32 else 0)
  {
    if i > 0 {
      LowerNamesAre(headers[1..], i - 1);
    } else if |headers| > 1 {
      LowerNamesAre(headers[1..], 0);
    }
  }

  /** The payload is signed for POST in any case, unless it is empty. */
  lemma PayloadIsSigned(verb: string, payload: string)
    ensures HasPayload(verb, payload) <==>
              payload != "" && |verb| == 4 && verb[0] in {'P', 'p'} && verb[1] in {'O', 'o'} && verb[2] in {'S', 's'}
              && verb[3] in {'T', 't'}
  {
    if |verb| == 4 {
      var upper := Upper(verb);
      assert upper == "POST" <==> upper[0] == 'P' && upper[1] == 'O' && upper[2] == 'S' && upper[3] == 'T';
    }
  }

  /** The first difference decides: `a` ends there, or has the character with the smaller code point. */
  ghost predicate SmallerAt(a: string, b: string, k: nat) {
    k <= |a| && k < |b| && a[..k] == b[..k] && (k == |a| || a[k] as int < b[k] as int)
  }

  lemma FirstsAgree(a: string, b: string, k: nat)
    requires SmallerAt(a, b, k) && k > 0
    ensures a != "" && b != "" && a[0] == b[0]
  {
    assert a[..k][0] == a[0] && b[..k][0] == b[0];
  }

  /** Names are compared by code points, as Rust compares strings. */
  lemma {:induction false} NamesCompareByCodePoints(a: string, b: string)
    ensures Less(CodePoints, a, b) <==> exists k: nat :: SmallerAt(a, b, k)
  {
    if a == "" || b == "" || a[0] != b[0] {
      if Less(CodePoints, a, b) {
        assert SmallerAt(a, b, 0);
      }
      if k: nat :| SmallerAt(a, b, k) {
        if k > 0 {
          FirstsAgree(a, b, k);
        }
      }
    } else {
      NamesCompareByCodePoints(a[1..], b[1..]);
      if k: nat :| SmallerAt(a[1..], b[1..], k) {
        assert a[..k + 1] == [a[0]] + a[1..][..k] && b[..k + 1] == [b[0]] + b[1..][..k];
        assert SmallerAt(a, b, k + 1);
      }
      if k: nat :| SmallerAt(a, b, k) {
        assert a[1..][..k - 1] == a[..k][1..] && b[1..][..k - 1] == b[..k][1..];
        assert SmallerAt(a[1..], b[1..], k - 1);
      }
    }
  }

  // Reading the request back

  lemma {:induction false} JoinSplits(parts: seq<string>, separator: char)
    requires parts != [] && forall i :: 0 <= i < |parts| ==> Lacks(parts[i], separator)
    ensures Split(Join(parts, [separator]), [separator]) == parts
  {
    LacksMeansAbsent(parts[0], separator);
    if |parts| > 1 {
      JoinSplits(parts[1..], separator);
      assert parts[0] != "" ==> Lacks([separator], parts[0][|parts[0]| - 1]);
      SplitAfter(parts[0], [separator], Join(parts[1..], [separator]));
      assert parts == [parts[0]] + parts[1..];
    }
  }

  lemma LacksMeansAbsent(s: string, c: char)
    requires Lacks(s, c)
    ensures !Occurs(s, [c])
  {
    if Occurs(s, [c]) {
      AtChar(s, Find(s, [c]).value, [c], 0);
    }
  }

  /** Split each line of the header block at its first colon. */
  function NamesOfLines(block: string): seq<string> {
    NamesBeforeColon(Split(block, "\n"))
  }

  function NamesBeforeColon(lines: seq<string>): seq<string> {
    if |lines| <= 1 then []
    else [Split(lines[0], ":")[0]] + NamesBeforeColon(lines[1..])
  }

  /** A header that can be written on one line: a token for a name, no line feed in the value. */
  predicate Writable(p: Pair) {
    Lacks(p.name, ':') && Lacks(p.name, ';') && Lacks(p.name, '\n') && Lacks(p.value, '\n')
  }

  lemma NameOfLine(p: Pair)
    requires Lacks(p.name, ':')
    ensures Split(p.name + ":" + Strip(p.value, Rust), ":")[0] == p.name
  {
    LacksMeansAbsent(p.name, ':');
    assert p.name != "" ==> Lacks(":", p.name[|p.name| - 1]);
    SplitAfter(p.name, ":", Strip(p.value, Rust));
    hide Split, Strip;
  }

  lemma StripLacks(s: string, c: char)
    requires Lacks(s, c)
    ensures Lacks(Strip(s, Rust), c)
  {
    var before, after := StripSplits(s, Rust);
    var core := Strip(s, Rust);
    assert forall i :: 0 <= i < |core| ==> core[i] == s[|before| + i];
  }

  lemma {:induction false} LinesReadBack(list: seq<Pair>)
    requires forall i :: 0 <= i < |list| ==> Writable(list[i])
    ensures NamesOfLines(HeaderBlock(list, Rust)) == Names(list)
  {
    if list == [] {
      assert Split("", "\n") == [""];
    } else {
      var p := list[0];
      var line := p.name + ":" + Strip(p.value, Rust);
      var rest := HeaderBlock(list[1..], Rust);
      LineOnOneLine(p);
      LacksMeansAbsent(line, '\n');
      assert line != "" ==> Lacks("\n", line[|line| - 1]);
      SplitAfter(line, "\n", rest);
      assert HeaderBlock(list, Rust) == line + "\n" + rest;
      NameOfLine(p);
      LinesReadBack(list[1..]);
      assert ([line] + Split(rest, "\n"))[1..] == Split(rest, "\n");
    }
  }

  lemma LineOnOneLine(p: Pair)
    requires Writable(p)
    ensures Lacks(p.name + ":" + Strip(p.value, Rust), '\n')
  {
    StripLacks(p.value, '\n');
    hide Strip;
  }

  /** The signed-header list names exactly the lines of the header block, in their order. */
  lemma SignedNamesAreTheLines(verb: string, path: string, query: seq<Pair>, headers: seq<Pair>, token: Option<string>,
                               payload: string, hash: string, empty: string)
    requires Signed(verb, headers, token, payload, hash) != []
    requires forall p :: p in Signed(verb, headers, token, payload, hash) ==> Writable(p)
    ensures var r := Canonical(verb, path, query, headers, token, payload, hash, empty);
            Split(r.signed, ";") == NamesOfLines(r.headers) == Names(Signed(verb, headers, token, payload, hash))
  {
    hide NamesOfLines, HeaderBlock, Split, Names, StableSort, Gathered, CanonicalQuery, HasPayload;
    var list := Signed(verb, headers, token, payload, hash);
    NamesAre(list);
    forall i | 0 <= i < |list|
      ensures Writable(list[i])
    {
      assert list[i] in list;
    }
    JoinSplits(Names(list), ';');
    LinesReadBack(list);
  }

  function HeaderTexts(list: seq<Pair>): seq<string> {
    if list == [] then [] else [list[0].name + ":" + Strip(list[0].value, Rust)] + HeaderTexts(list[1..])
  }

  lemma CutLine(line: string, rest: string)
    requires Lacks(line, '\n')
    ensures Split(line + "\n" + rest, "\n") == [line] + Split(rest, "\n")
  {
    LacksMeansAbsent(line, '\n');
    assert line != "" ==> Lacks("\n", line[|line| - 1]);
    SplitAfter(line, "\n", rest);
  }

  lemma LastLineCut(line: string)
    requires Lacks(line, '\n')
    ensures Split(line, "\n") == [line]
  {
    LacksMeansAbsent(line, '\n');
  }

  lemma BlockNext(list: seq<Pair>, rest: string)
    requires list != []
    ensures HeaderBlock(list, Rust) + rest
         == list[0].name + ":" + Strip(list[0].value, Rust) + "\n" + (HeaderBlock(list[1..], Rust) + rest)
  {
    hide Strip;
  }

  lemma {:induction false} BlockCut(list: seq<Pair>, rest: string)
    requires forall i :: 0 <= i < |list| ==> Writable(list[i])
    ensures Split(HeaderBlock(list, Rust) + rest, "\n") == HeaderTexts(list) + Split(rest, "\n")
  {
    hide Split, Strip, Writable;
    if list == [] {
      assert HeaderBlock(list, Rust) + rest == rest;
    } else {
      hide HeaderBlock;
      var p, more := list[0], list[1..];
      LineOnOneLine(p);
      BlockNext(list, rest);
      CutLine(p.name + ":" + Strip(p.value, Rust), HeaderBlock(more, Rust) + rest);
      BlockCut(more, rest);
    }
  }

  /** Cut at its line feeds, the canonical request shows verb, path, query, one line for each signed header,
      an empty line, the signed names and the hash, in this order. */
  lemma RequestReadsBack(verb: string, path: string, query: seq<Pair>, headers: seq<Pair>, token: Option<string>,
                         payload: string, hash: string, empty: string)
    requires Lacks(Upper(verb), '\n') && Lacks(path, '\n') && Lacks(hash, '\n') && Lacks(empty, '\n')
    requires Lacks(CanonicalQuery(query), '\n')
    requires forall p :: p in Signed(verb, headers, token, payload, hash) ==> Writable(p)
    ensures var r := Canonical(verb, path, query, headers, token, payload, hash, empty);
            Split(r.text, "\n")
              == [Upper(verb), path, CanonicalQuery(query)] + HeaderTexts(Signed(verb, headers, token, payload, hash))
                 + ["", r.signed, if HasPayload(verb, payload) then hash else empty]
  {
    hide HeaderBlock, Split, Names, StableSort, Gathered, CanonicalQuery, HasPayload, HeaderTexts, Writable;
    hide Join, Upper;
    var list := Signed(verb, headers, token, payload, hash);
    forall i | 0 <= i < |list|
      ensures Writable(list[i])
    {
      assert list[i] in list;
    }
    var signed := Join(Names(list), ";");
    SignedOnOneLine(list);
    TextCut(Upper(verb), path, CanonicalQuery(query), list, signed, if HasPayload(verb, payload) then hash else empty);
  }

  lemma {:induction false} SignedOnOneLine(list: seq<Pair>)
    requires forall i :: 0 <= i < |list| ==> Writable(list[i])
    ensures Lacks(Join(Names(list), ";"), '\n')
  {
    if |list| > 1 {
      SignedOnOneLine(list[1..]);
      assert Names(list)[1..] == Names(list[1..]);
    }
  }

  lemma Flat(a: string, b: string, c: string, d: string, e: string, f: string, n: string)
    ensures a + n + b + n + c + n + d + n + e + n + f == a + n + (b + n + (c + n + (d + ("" + n + (e + n + f)))))
  {}

  lemma TextCut(a: string, b: string, c: string, list: seq<Pair>, e: string, f: string)
    requires Lacks(a, '\n') && Lacks(b, '\n') && Lacks(c, '\n') && Lacks(e, '\n') && Lacks(f, '\n')
    requires forall i :: 0 <= i < |list| ==> Writable(list[i])
    ensures Split(a + "\n" + b + "\n" + c + "\n" + HeaderBlock(list, Rust) + "\n" + e + "\n" + f, "\n")
         == [a, b, c] + HeaderTexts(list) + ["", e, f]
  {
    hide Split, HeaderBlock, HeaderTexts, Writable, Lacks;
    Flat(a, b, c, HeaderBlock(list, Rust), e, f, "\n");
    CutLine(a, b + "\n" + (c + "\n" + (HeaderBlock(list, Rust) + ("" + "\n" + (e + "\n" + f)))));
    CutLine(b, c + "\n" + (HeaderBlock(list, Rust) + ("" + "\n" + (e + "\n" + f))));
    CutLine(c, HeaderBlock(list, Rust) + ("" + "\n" + (e + "\n" + f)));
    BlockCut(list, "" + "\n" + (e + "\n" + f));
    EmptyLacks();
    CutLine("", e + "\n" + f);
    CutLine(e, f);
    LastLineCut(f);
    FlatLists(a, b, c, HeaderTexts(list), e, f);
  }

  lemma EmptyLacks()
    ensures Lacks("", '\n')
  {}

  lemma FlatLists(a: string, b: string, c: string, lines: seq<string>, e: string, f: string)
    ensures [a] + ([b] + ([c] + (lines + ([""] + ([e] + [f]))))) == [a, b, c] + lines + ["", e, f]
  {}

  // Reading the query back

  /** Nothing in the pair looks like a separator. */
  predicate Separable(p: Pair) {
    Lacks(p.name, '=') && Lacks(p.name, '&') && Lacks(p.value, '&')
  }

  function ReadAssignment(s: string): Pair {
    var at := Find(s, "=");
    if at.None? then Pair(s, "") else Pair(s[..at.value], s[at.value + 1..])
  }

  function ReadAssignments(parts: seq<string>): seq<Pair> {
    if parts == [] then [] else [ReadAssignment(parts[0])] + ReadAssignments(parts[1..])
  }

  lemma AssignmentReadsBack(p: Pair)
    requires Separable(p)
    ensures ReadAssignment(Assignment(p)) == p && Lacks(Assignment(p), '&')
  {
    LacksMeansAbsent(p.name, '=');
    assert p.name != "" ==> Lacks("=", p.name[|p.name| - 1]);
    FoundAfter(p.name, "=", p.value);
  }

  lemma {:induction false} AssignmentsReadBack(list: seq<Pair>)
    requires forall i :: 0 <= i < |list| ==> Separable(list[i])
    ensures |Assignments(list)| == |list| && ReadAssignments(Assignments(list)) == list
    ensures forall i :: 0 <= i < |list| ==> Lacks(Assignments(list)[i], '&')
  {
    hide ReadAssignment, Separable, Assignment, Lacks;
    if list != [] {
      AssignmentReadsBack(list[0]);
      AssignmentsReadBack(list[1..]);
      var parts, rest := Assignments(list), Assignments(list[1..]);
      assert parts[0] == Assignment(list[0]) && parts[1..] == rest;
      assert forall i :: 0 < i < |list| ==> parts[i] == rest[i - 1];
    }
  }

  lemma QueryNext(list: seq<Pair>)
    requires list != []
    ensures QueryOf(list) == Assignment(list[0]) + (if |list| == 1 then "" else "&" + QueryOf(list[1..]))
  {
    assert |list| == 1 ==> list[1..] == [];
    assert Assignments(list)[1..] == Assignments(list[1..]);
  }

  /** The sorted parameters can be read off the canonical query, if none of them holds a separator. */
  lemma QueryReadsBack(query: seq<Pair>)
    requires query != [] && forall p :: p in query ==> Separable(p)
    ensures ReadAssignments(Split(CanonicalQuery(query), "&")) == StableSort(CodePoints, query)
  {
    hide StableSort, Assignments, Separable;
    var sorted := StableSort(CodePoints, query);
    SortKeepsPairs(CodePoints, query);
    assert |multiset(sorted)| == |multiset(query)| > 0;
    forall i | 0 <= i < |sorted|
      ensures Separable(sorted[i])
    {
      assert sorted[i] in multiset(query);
    }
    AssignmentsReadBack(sorted);
    JoinSplits(Assignments(sorted), '&');
  }

  /** Two such queries have one canonical form exactly when they hold the same pairs name by name. */
  lemma CanonicalQueryIsExact(a: seq<Pair>, b: seq<Pair>)
    requires a != [] && b != []
    requires forall p :: p in a || p in b ==> Separable(p)
    ensures CanonicalQuery(a) == CanonicalQuery(b) <==> SameByName(a, b)
  {
    hide Split, ReadAssignments, StableSort;
    QueryReadsBack(a);
    QueryReadsBack(b);
    SortDependsOn(CodePoints, a, b);
  }

  lemma QueryOfOne(p: Pair)
    ensures CanonicalQuery([p]) == Assignment(p) && StableSort(CodePoints, [p]) == [p]
  {
    assert [p][1..] == [] && StableSort(CodePoints, []) == [] && Assignments([]) == [];
    assert StableSort(CodePoints, [p]) == [p] && Assignments([p]) == [Assignment(p)];
  }

  lemma SortTwo(order: Order, a: Pair, b: Pair)
    requires a.name != b.name
    ensures StableSort(order, [a, b]) == if Less(order, a.name, b.name) then [a, b] else [b, a]
  {
    LessIsTotal(order, a.name, b.name);
    hide Less;
    assert [a, b][1..] == [b] && [b][1..] == [] && StableSort(order, []) == [];
    assert Insert(order, b, []) == [b] && Insert(order, a, []) == [a];
    assert StableSort(order, [b]) == [b];
    assert Insert(order, a, [b]) == if Less(order, b.name, a.name) then [b, a] else [a, b];
  }

  lemma TwoAssignments(a: Pair, b: Pair)
    ensures QueryOf([a, b]) == a.name + "=" + a.value + "&" + (b.name + "=" + b.value)
  {
    var x, y := a.name + "=" + a.value, b.name + "=" + b.value;
    assert [a, b][1..] == [b] && [b][1..] == [] && Assignments([]) == [];
    assert Assignments([b]) == [y] && Assignments([a, b]) == [x] + [y];
    assert [x, y][1..] == [y] && Join([y], "&") == y;
    assert Join([x, y], "&") == x + "&" + y;
  }

  /** Values are not encoded, so one that holds separators reads like two parameters. */
  lemma SeparatorsAreAmbiguous()
    ensures CanonicalQuery([Pair("a", "1&b=2")]) == CanonicalQuery([Pair("a", "1"), Pair("b", "2")])
  {
    var p, q, r := Pair("a", "1&b=2"), Pair("a", "1"), Pair("b", "2");
    assert Less(CodePoints, "a", "b");
    hide StableSort, Less;
    QueryOfOne(p);
    SortTwo(CodePoints, q, r);
    TwoAssignments(q, r);
    assert "a" + "=" + "1&b=2" == "a=1&b=2" == "a" + "=" + "1" + "&" + ("b" + "=" + "2");
  }
}
