/** When the canonical query determines the parameters it was written from. */
module QueryReadings {
  import opened Text
  import opened SigV4
  import CanonicalForm

  /** Some list with other pairs under some name has the same canonical query. */
  ghost predicate HasSecondReading(query: seq<Pair>) {
    exists other :: CanonicalQuery(other) == CanonicalQuery(query) && !SameByName(query, other)
  }

  predicate TwoEquals(s: string) {
    exists i, j :: 0 <= i < j < |s| && s[i] == '=' && s[j] == '='
  }

  /** One parameter at most, with no equals sign in its name or value. */
  predicate OnePlain(query: seq<Pair>) {
    query == [] || (|query| == 1 && Lacks(query[0].name, '=') && Lacks(query[0].value, '='))
  }

  lemma EqualsInText(query: seq<Pair>)
    ensures query == [] ==> CanonicalQuery(query) == ""
    ensures query != [] ==> exists i :: 0 <= i < |CanonicalQuery(query)| && CanonicalQuery(query)[i] == '='
    ensures |query| >= 2 ==> TwoEquals(CanonicalQuery(query))
  {
    var sorted := StableSort(CodePoints, query);
    SortKeepsPairs(CodePoints, query);
    assert |multiset(sorted)| == |multiset(query)|;
    hide StableSort;
    if query != [] {
      var s, p := CanonicalQuery(query), sorted[0];
      CanonicalForm.QueryNext(sorted);
      assert s[|p.name|] == '=';
      if |query| >= 2 {
        CanonicalForm.QueryNext(sorted[1..]);
        var k := |Assignment(p)| + 1 + |sorted[1].name|;
        assert s == Assignment(p) + "&" + QueryOf(sorted[1..]);
        assert QueryOf(sorted[1..])[|sorted[1].name|] == '=';
        assert s[k] == '=';
      }
    }
  }

  /** Cut at two different equals signs, the text is that of two different parameters. */
  lemma TwoReadings(query: seq<Pair>, i: nat, j: nat)
    requires var s := CanonicalQuery(query); i < j < |s| && s[i] == '=' && s[j] == '='
    ensures HasSecondReading(query)
  {
    hide CanonicalQuery, SameByName;
    var s := CanonicalQuery(query);
    var p, q := Pair(s[..i], s[i + 1..]), Pair(s[..j], s[j + 1..]);
    assert Assignment(p) == s && Assignment(q) == s;
    CanonicalForm.QueryOfOne(p);
    CanonicalForm.QueryOfOne(q);
    assert |p.name| == i && |q.name| == j;
    assert [p][0] != [q][0];
    SortDependsOn(CodePoints, query, [p]);
    SortDependsOn(CodePoints, query, [q]);
  }

  lemma OneEquals(p: Pair, q: Pair)
    requires Lacks(p.name, '=') && Lacks(p.value, '=') && Assignment(p) == Assignment(q)
    ensures p == q
  {
    var s := Assignment(p);
    assert s[|q.name|] == '=';
    assert s[..|p.name|] == p.name && s[|p.name| + 1..] == p.value;
    assert s[..|q.name|] == q.name && s[|q.name| + 1..] == q.value;
  }

  lemma PlainIsTheOnlyReading(query: seq<Pair>, other: seq<Pair>)
    requires OnePlain(query) && CanonicalQuery(other) == CanonicalQuery(query)
    ensures other == query
  {
    hide CanonicalQuery;
    EqualsInText(query);
    EqualsInText(other);
    if query != [] {
      CanonicalForm.QueryOfOne(query[0]);
      assert query == [query[0]];
      NotTwo(query[0]);
      assert other == [other[0]];
      CanonicalForm.QueryOfOne(other[0]);
      OneEquals(query[0], other[0]);
    }
  }

  lemma NotTwo(p: Pair)
    ensures TwoEquals(Assignment(p)) <==> !Lacks(p.name, '=') || !Lacks(p.value, '=')
  {
    var s := Assignment(p);
    assert s[|p.name|] == '=';
    assert forall i :: 0 <= i < |p.name| ==> s[i] == p.name[i];
    assert forall i :: 0 <= i < |p.value| ==> s[|p.name| + 1 + i] == p.value[i];
  }

  /** The canonical query has a second reading exactly when it holds two equals signs, and that is when there
      are two parameters or more, or a single one with an equals sign in its name or value. */
  lemma SecondReadingExactly(query: seq<Pair>)
    ensures HasSecondReading(query) <==> TwoEquals(CanonicalQuery(query))
    ensures HasSecondReading(query) <==> !OnePlain(query)
  {
    hide CanonicalQuery;
    var s := CanonicalQuery(query);
    EqualsInText(query);
    if |query| == 1 {
      assert query == [query[0]];
      CanonicalForm.QueryOfOne(query[0]);
      NotTwo(query[0]);
    }
    if TwoEquals(s) {
      var i, j :| 0 <= i < j < |s| && s[i] == '=' && s[j] == '=';
      TwoReadings(query, i, j);
    } else {
      forall other | CanonicalQuery(other) == CanonicalQuery(query)
        ensures SameByName(query, other)
      {
        PlainIsTheOnlyReading(query, other);
      }
    }
  }
}
