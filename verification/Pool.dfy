/** The session pool as the program has it: the table in the database and the vector it keeps in
    memory beside it. Operations run one at a time here; `works` says whether the SQL statement of
    an operation succeeds, in which case the vector is updated after it. */
module Pool {
  import opened Wrappers
  import opened Tables
  import opened Store
  import Gateway

  datatype Info = Info(id: SessionId, row: Session)

  /** Everything but `last_error`, which a release writes to the database only. */
  predicate Matches(cached: Session, row: Session) {
    cached.(lastError := row.lastError) == row
  }

  /** The vector lists each session of the table once, with matching contents. */
  ghost predicate Agree(cache: seq<Info>, ss: SessionTable) {
    && Distinct(cache)
    && (forall i :: 0 <= i < |cache| ==> cache[i].id in ss && Matches(cache[i].row, ss[cache[i].id]))
    && (forall id :: id in ss ==> exists i :: 0 <= i < |cache| && cache[i].id == id)
  }

  const I32_MIN := -0x8000_0000

  /** `i32::saturating_sub(1)`. */
  function SaturatingDec(x: int): int {
    if x - 1 < I32_MIN then I32_MIN else x - 1
  }

  /** What a release does to the cached copy. */
  function ReleasedCopy(row: Session, success: bool): Session {
    row.(activeTasks := SaturatingDec(row.activeTasks), totalTasks := row.totalTasks + 1,
         successCount := if success then row.successCount + 1 else row.successCount,
         failCount := if success then row.failCount else row.failCount + 1)
  }

  /** Position of the first entry with an id, as `iter_mut().find` meets it. */
  function FirstIndex(cache: seq<Info>, id: SessionId): (found: Option<nat>)
    ensures found.Some? ==> found.value < |cache| && cache[found.value].id == id
    ensures found.None? ==> forall i :: 0 <= i < |cache| ==> cache[i].id != id
  {
    if cache == [] then None
    else if cache[0].id == id then Some(0)
    else
      var rest := FirstIndex(cache[1..], id);
      if rest.Some? then Some(rest.value + 1) else None
  }

  /** What the code copies or recomputes in the vector entry of the row a statement updated. */
  function CopyAfter(copy: Session, stmt: Gateway.Stmt, row: Session): Session {
    match stmt
    case PickSession(_) => copy.(activeTasks := row.activeTasks, lastUsedAt := row.lastUsedAt)
    case ReleaseSession(_, success, _) => ReleasedCopy(copy, success)
    case MarkUnhealthy(_) => copy.(healthy := false)
    case ToggleSession(_, enabled) => copy.(enabled := enabled, healthy := if enabled then true else copy.healthy)
    case SetCookieJar(_, jar) => copy.(cookieJar := Some(jar))
    case _ => copy
  }

  /** The vector after a statement that worked; `ss` is the table after it. */
  function CacheAfter(cache: seq<Info>, stmt: Gateway.Stmt, ss: SessionTable): seq<Info> {
    match stmt
    case AddSession(id, _, _, _) => if id in ss then cache + [Info(id, ss[id])] else cache
    case RemoveSession(id) => Without(cache, id)
    case _ =>
      var target := Gateway.SessionTarget(stmt);
      if target.None? then cache
      else
        var at := FirstIndex(cache, target.value);
        if at.None? then cache
        else
          var copy := cache[at.value].row;
          var row := if target.value in ss then ss[target.value] else copy;
          cache[at.value := Info(target.value, CopyAfter(copy, stmt, row))]
  }

  /** Both copies of a row move together exactly when the counter is positive: the table clamps at
      zero, the vector does not. */
  lemma ReleaseMatches(cached: Session, row: Session, success: bool, error: Option<string>)
    requires Matches(cached, row)
    ensures Matches(ReleasedCopy(cached, success), ReleasedRow(row, success, error)) <==> row.activeTasks >= 1
  {}

  lemma UpdateAgrees(cache: seq<Info>, ss: SessionTable, i: nat, copy: Session, row: Session)
    requires Agree(cache, ss) && i < |cache|
    ensures Agree(cache[i := Info(cache[i].id, copy)], ss[cache[i].id := row]) <==> Matches(copy, row)
  {
    var id := cache[i].id;
    var cache', ss' := cache[i := Info(id, copy)], ss[id := row];
    if Matches(copy, row) {
      forall k | k in ss'
        ensures exists j :: 0 <= j < |cache'| && cache'[j].id == k
      {
        var j :| 0 <= j < |cache| && cache[j].id == k;
        assert cache'[j].id == k;
      }
    } else {
      assert cache'[i].id == id && !Matches(cache'[i].row, ss'[id]);
    }
  }

  /** Picks rotate: a session that was just picked is not picked again while another available one was never
      used or was used before. */
  lemma PicksRotate(ss: SessionTable, id: SessionId, other: SessionId, now: nat)
    requires Pickable(ss, id) && other in ss && other != id
    requires ss[other].enabled && ss[other].healthy && ss[other].activeTasks < 2
    requires ss[other].lastUsedAt.None? || ss[other].lastUsedAt.value < now
    ensures !Pickable(Gateway.SessionsAfter(ss, Gateway.PickSession(id), now), id)
  {
    var after := Gateway.SessionsAfter(ss, Gateway.PickSession(id), now);
    assert after[other] == ss[other] && Available(after[other]);
  }

  /** Part way through the ordered SELECT: `rows` delivered, `rest` still to come. */
  ghost predicate Ordered(ss: SessionTable, rows: seq<Info>, rest: set<SessionId>) {
    && rest <= ss.Keys && |rows| + |rest| == |ss|
    && Distinct(rows)
    && (forall i, j :: 0 <= i < j < |rows| ==> rows[i].row.createdAt <= rows[j].row.createdAt)
    && (forall i :: 0 <= i < |rows| ==> rows[i].id in ss && rows[i].id !in rest && rows[i].row == ss[rows[i].id])
    && (forall i, id :: 0 <= i < |rows| && id in rest ==> rows[i].row.createdAt <= ss[id].createdAt)
  }

  ghost predicate Covered(ss: SessionTable, rows: seq<Info>, rest: set<SessionId>) {
    forall id :: id in ss && id !in rest ==> exists i :: 0 <= i < |rows| && rows[i].id == id
  }

  lemma OrderedNext(ss: SessionTable, rows: seq<Info>, rest: set<SessionId>, id: SessionId)
    requires Ordered(ss, rows, rest) && id in rest
    requires forall other :: other in rest ==> ss[id].createdAt <= ss[other].createdAt
    ensures Ordered(ss, rows + [Info(id, ss[id])], rest - {id})
  {
    var rows' := rows + [Info(id, ss[id])];
    assert Distinct(rows') by {
      forall i, j | 0 <= i < j < |rows'|
        ensures rows'[i].id != rows'[j].id
      {
        assert rows'[i] == rows[i];
      }
    }
  }

  lemma CoveredNext(ss: SessionTable, rows: seq<Info>, rest: set<SessionId>, id: SessionId)
    requires Covered(ss, rows, rest) && id in rest && id in ss
    ensures Covered(ss, rows + [Info(id, ss[id])], rest - {id})
  {
    var rows' := rows + [Info(id, ss[id])];
    forall k | k in ss && k !in rest - {id}
      ensures exists i :: 0 <= i < |rows'| && rows'[i].id == k
    {
      if k == id {
        assert rows'[|rows|].id == k;
      } else {
        var i :| 0 <= i < |rows| && rows[i].id == k;
        assert rows'[i].id == k;
      }
    }
  }

  class SessionPool {
    const db: Database
    var cache: seq<Info>

    constructor (db: Database)
      ensures this.db == db && cache == []
    {
      this.db := db;
      cache := [];
    }

    ghost predicate InSync()
      reads this, db
    {
      Agree(cache, db.sessions)
    }

    /** SELECT ... ORDER BY created_at, into the vector. */
    method LoadSessions()
      modifies this
      ensures InSync() && |cache| == |db.sessions|
      ensures forall i :: 0 <= i < |cache| ==> cache[i].row == db.sessions[cache[i].id]
      ensures forall i, j :: 0 <= i < j < |cache| ==> cache[i].row.createdAt <= cache[j].row.createdAt
    {
      var rows: seq<Info> := [];
      var rest := db.sessions.Keys;
      while rest != {}
        invariant Ordered(db.sessions, rows, rest) && Covered(db.sessions, rows, rest)
        decreases |rest|
      {
        EarliestExists(db.sessions, rest);
        var id :| id in rest &&
          forall other :: other in rest ==> db.sessions[id].createdAt <= db.sessions[other].createdAt;
        OrderedNext(db.sessions, rows, rest, id);
        CoveredNext(db.sessions, rows, rest, id);
        rows := rows + [Info(id, db.sessions[id])];
        rest := rest - {id};
      }
      cache := rows;
    }

    /** Of the enabled, healthy sessions with less than two tasks, the one used longest ago, never used ones
        first. The pick counts a task and stamps the time of use, and touches nothing else. */
    method PickSession(now: nat, works: bool) returns (picked: Option<Info>)
      modifies this`cache, db`sessions
      ensures picked.None? <==> !works || forall id :: id in old(db.sessions) ==>
                var row := old(db.sessions)[id];
                !row.enabled || !row.healthy || row.activeTasks >= 2
      ensures picked.None? ==> db.sessions == old(db.sessions) && cache == old(cache)
      ensures picked.Some? ==>
        picked.value.id in old(db.sessions) &&
        var row := old(db.sessions)[picked.value.id];
        && row.enabled && row.healthy && row.activeTasks < 2
        && (forall id :: id in old(db.sessions) ==>
              var other := old(db.sessions)[id];
              other.enabled && other.healthy && other.activeTasks < 2 ==>
                row.lastUsedAt.None? || (other.lastUsedAt.Some? && row.lastUsedAt.value <= other.lastUsedAt.value))
        && picked.value.row == row.(activeTasks := row.activeTasks + 1, lastUsedAt := Some(now))
        && db.sessions == old(db.sessions)[picked.value.id := picked.value.row]
      ensures picked.Some? ==>
        db.sessions == Gateway.SessionsAfter(old(db.sessions), Gateway.PickSession(picked.value.id), now)
      ensures picked.Some? ==> cache == CacheAfter(old(cache), Gateway.PickSession(picked.value.id), db.sessions)
      ensures old(InSync()) ==> InSync()
    {
      picked := None;
      if works && exists id :: id in db.sessions && Available(db.sessions[id]) {
        ghost var free :| free in db.sessions && Available(db.sessions[free]);
        PickableExists(db.sessions, free);
        var id :| id in db.sessions && Pickable(db.sessions, id);
        var row := PickedRow(db.sessions[id], now);
        db.sessions := db.sessions[id := row];
        picked := Some(Info(id, row));
        var at := FirstIndex(cache, id);
        if at.Some? {
          var copy := cache[at.value].row.(activeTasks := row.activeTasks, lastUsedAt := row.lastUsedAt);
          cache := cache[at.value := Info(id, copy)];
          if old(InSync()) {
            UpdateAgrees(old(cache), old(db.sessions), at.value, copy, row);
          }
        }
      }
    }

    /** Agreement survives a release exactly when the released session was counted as active (or is
        unknown, or the statement failed). */
    method ReleaseSession(id: SessionId, success: bool, error: Option<string>, works: bool)
      modifies this`cache, db`sessions
      ensures works && id in old(db.sessions) ==>
        var row := old(db.sessions)[id];
        db.sessions == old(db.sessions)[id := row.(
          activeTasks := if row.activeTasks >= 1 then row.activeTasks - 1 else 0, totalTasks := row.totalTasks + 1,
          successCount := row.successCount + (if success then 1 else 0),
          failCount := row.failCount + (if success then 0 else 1),
          lastError := if error.Some? then error else row.lastError)]
      ensures db.sessions == if works
                             then Gateway.SessionsAfter(old(db.sessions), Gateway.ReleaseSession(id, success, error), 0)
                             else old(db.sessions)
      ensures cache == if works then CacheAfter(old(cache), Gateway.ReleaseSession(id, success, error), db.sessions)
          else old(cache)
      ensures old(InSync()) ==>
        (InSync() <==> (works && id in old(db.sessions) ==> old(db.sessions)[id].activeTasks >= 1))
    {
      if !works {
        return;
      }
      if id in db.sessions {
        db.sessions := db.sessions[id := ReleasedRow(db.sessions[id], success, error)];
      }
      var at := FirstIndex(cache, id);
      if at.Some? {
        var copy := ReleasedCopy(cache[at.value].row, success);
        cache := cache[at.value := Info(id, copy)];
        if old(InSync()) {
          ReleaseMatches(old(cache)[at.value].row, old(db.sessions)[id], success, error);
          UpdateAgrees(old(cache), old(db.sessions), at.value, copy, db.sessions[id]);
        }
      }
    }

    /** The session is not picked any more until it is enabled again. */
    method MarkUnhealthy(id: SessionId, works: bool)
      modifies this`cache, db`sessions
      ensures works && id in old(db.sessions) ==>
        db.sessions == old(db.sessions)[id := old(db.sessions)[id].(healthy := false)] && !Pickable(db.sessions, id)
      ensures db.sessions == if works then Gateway.SessionsAfter(old(db.sessions), Gateway.MarkUnhealthy(id), 0)
          else old(db.sessions)
      ensures cache == if works then CacheAfter(old(cache), Gateway.MarkUnhealthy(id), db.sessions) else old(cache)
      ensures old(InSync()) ==> InSync()
    {
      if !works {
        return;
      }
      if id in db.sessions {
        db.sessions := db.sessions[id := UnhealthyRow(db.sessions[id])];
      }
      var at := FirstIndex(cache, id);
      if at.Some? {
        var copy := UnhealthyRow(cache[at.value].row);
        cache := cache[at.value := Info(id, copy)];
        if old(InSync()) {
          UpdateAgrees(old(cache), old(db.sessions), at.value, copy, db.sessions[id]);
        }
      }
    }

    /** `id` is a fresh UUID. */
    method AddSession(id: SessionId, sessionLabel: string, token: string, cookieJar: Option<string>,
                      now: nat, works: bool)
      returns (added: bool)
      requires id !in db.sessions
      modifies this`cache, db`sessions
      ensures added == works
      ensures works ==>
        db.sessions == old(db.sessions)[
          id := Session(true, true, 0, 0, 0, 0, None, None, cookieJar, sessionLabel, token, now)]
      ensures db.sessions == if works then old(db.sessions)[id := NewSession(sessionLabel, token, cookieJar, now)]
          else old(db.sessions)
      ensures cache == if works then old(cache) + [Info(id, NewSession(sessionLabel, token, cookieJar, now))]
          else old(cache)
      ensures old(InSync()) ==> InSync()
    {
      added := works;
      if works {
        var row := NewSession(sessionLabel, token, cookieJar, now);
        db.sessions := db.sessions[id := row];
        cache := cache + [Info(id, row)];
        assert cache[|cache| - 1].id == id;
        assert forall i :: 0 <= i < |old(cache)| ==> cache[i] == old(cache)[i];
      }
    }

    method RemoveSession(id: SessionId, works: bool) returns (removed: bool)
      modifies this`cache, db`sessions
      ensures removed <==> works && id in old(db.sessions)
      ensures db.sessions == if works then old(db.sessions) - {id} else old(db.sessions)
      ensures cache == if works then Without(old(cache), id) else old(cache)
      ensures old(InSync()) ==> InSync()
    {
      removed := works && id in db.sessions;
      if works {
        db.sessions := db.sessions - {id};
        cache := Without(cache, id);
        if old(InSync()) {
          RemoveAgrees(old(cache), old(db.sessions), id);
        }
      }
    }

    method ToggleSession(id: SessionId, enabled: bool, works: bool) returns (toggled: bool)
      modifies this`cache, db`sessions
      ensures toggled <==> works && id in old(db.sessions)
      ensures toggled ==>
        var row := old(db.sessions)[id];
        db.sessions == old(db.sessions)[id := row.(enabled := enabled, healthy := enabled || row.healthy)]
      ensures toggled && !enabled ==> !Pickable(db.sessions, id)
      ensures db.sessions == if works
                             then Gateway.SessionsAfter(old(db.sessions), Gateway.ToggleSession(id, enabled), 0)
                             else old(db.sessions)
      ensures cache == if works then CacheAfter(old(cache), Gateway.ToggleSession(id, enabled), db.sessions)
          else old(cache)
      ensures old(InSync()) ==> InSync()
    {
      toggled := works && id in db.sessions;
      if !works {
        return;
      }
      if id in db.sessions {
        db.sessions := db.sessions[id := ToggledRow(db.sessions[id], enabled)];
      }
      var at := FirstIndex(cache, id);
      if at.Some? {
        var copy := cache[at.value].row.(enabled := enabled);
        if enabled {
          copy := copy.(healthy := true);
        }
        cache := cache[at.value := Info(id, copy)];
        if old(InSync()) {
          UpdateAgrees(old(cache), old(db.sessions), at.value, copy, db.sessions[id]);
        }
      }
    }

    method UpdateCookieJar(id: SessionId, jar: string, works: bool) returns (updated: bool)
      modifies this`cache, db`sessions
      ensures updated <==> works && id in old(db.sessions)
      ensures updated ==> db.sessions == old(db.sessions)[id := old(db.sessions)[id].(cookieJar := Some(jar))]
      ensures db.sessions == if works then Gateway.SessionsAfter(old(db.sessions), Gateway.SetCookieJar(id, jar), 0)
          else old(db.sessions)
      ensures cache == if works then CacheAfter(old(cache), Gateway.SetCookieJar(id, jar), db.sessions) else old(cache)
      ensures old(InSync()) ==> InSync()
    {
      updated := works && id in db.sessions;
      if !works {
        return;
      }
      if id in db.sessions {
        db.sessions := db.sessions[id := db.sessions[id].(cookieJar := Some(jar))];
      }
      var at := FirstIndex(cache, id);
      if at.Some? {
        var copy := cache[at.value].row.(cookieJar := Some(jar));
        cache := cache[at.value := Info(id, copy)];
        if old(InSync()) {
          UpdateAgrees(old(cache), old(db.sessions), at.value, copy, db.sessions[id]);
        }
      }
    }
  }

  /** `Vec::retain(|s| s.id != id)`. */
  function Without(cache: seq<Info>, id: SessionId): seq<Info> {
    if cache == [] then []
    else if cache[0].id == id then Without(cache[1..], id)
    else [cache[0]] + Without(cache[1..], id)
  }

  lemma {:induction false} WithoutMembers(cache: seq<Info>, id: SessionId)
    ensures forall x :: x in Without(cache, id) <==> x in cache && x.id != id
  {
    if cache != [] {
      WithoutMembers(cache[1..], id);
      assert forall x :: x in cache <==> x == cache[0] || x in cache[1..];
    }
  }

  ghost predicate Distinct(cache: seq<Info>) {
    forall i, j :: 0 <= i < j < |cache| ==> cache[i].id != cache[j].id
  }

  lemma {:induction false} WithoutDistinct(cache: seq<Info>, id: SessionId)
    requires Distinct(cache)
    ensures Distinct(Without(cache, id))
  {
    if cache != [] {
      var rest := cache[1..];
      assert Distinct(rest);
      WithoutDistinct(rest, id);
      WithoutMembers(rest, id);
      forall j | 0 <= j < |Without(rest, id)|
        ensures Without(rest, id)[j].id != cache[0].id
      {
        assert Without(rest, id)[j] in rest;
        var k :| 0 <= k < |rest| && rest[k] == Without(rest, id)[j];
        assert cache[k + 1] == rest[k];
      }
    }
  }

  lemma RemoveAgrees(cache: seq<Info>, ss: SessionTable, id: SessionId)
    requires Agree(cache, ss)
    ensures Agree(Without(cache, id), ss - {id})
  {
    WithoutMembers(cache, id);
    WithoutDistinct(cache, id);
    var cache', ss' := Without(cache, id), ss - {id};
    forall i | 0 <= i < |cache'|
      ensures cache'[i].id in ss' && Matches(cache'[i].row, ss'[cache'[i].id])
    {
      assert cache'[i] in cache' && cache'[i] in cache;
    }
    forall k | k in ss'
      ensures exists i :: 0 <= i < |cache'| && cache'[i].id == k
    {
      var i :| 0 <= i < |cache| && cache[i].id == k;
      assert cache[i] in cache && cache[i] in cache';
    }
  }

  lemma EarliestExists(ss: SessionTable, ids: set<SessionId>)
    requires ids != {} && ids <= ss.Keys
    ensures exists s :: s in ids && forall u :: u in ids ==> ss[s].createdAt <= ss[u].createdAt
  {
    var age := s => if s in ss then ss[s].createdAt else 0;
    LeastExists(ids, age);
    var s :| s in ids && forall u :: u in ids ==> age(s) <= age(u);
    assert forall u :: u in ids ==> age(u) == ss[u].createdAt;
  }
}
