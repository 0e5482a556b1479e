/** The in-memory vector along whole runs of the gateway, when each pool operation updates it
    before another pool operation starts. */
module PoolRuns {
  import opened Wrappers
  import opened Tables
  import opened Gateway
  import opened Pool
  import Accounting

  /** The vector next to a gateway state. Startup fills it last, from the recovered table. */
  ghost predicate InSync(s: State, cache: seq<Info>) {
    s.phase.Up? ==> Agree(cache, s.db.sessions)
  }

  /** One gateway action with the vector update that goes with it: none for a failed statement, a
      reload when startup ends. */
  ghost predicate CacheStep(s: State, a: Action, cache: seq<Info>, cache': seq<Info>)
    requires Enabled(s, a)
  {
    match a
    case Work(_, stmt, ok, _) => cache' == if ok then CacheAfter(cache, stmt, Step(s, a).db.sessions) else cache
    case Request(stmt) => cache' == CacheAfter(cache, stmt, Step(s, a).db.sessions)
    case Recover => Step(s, a).phase.Up? ==> Agree(cache', Step(s, a).db.sessions)
    case _ => cache' == cache
  }

  /** Copy and row stay equal, for every statement on a session; a release needs its counter. */
  lemma CopyMatches(copy: Session, row: Session, stmt: Stmt, now: nat)
    requires Matches(copy, row)
    requires stmt.ReleaseSession? ==> row.activeTasks >= 1
    ensures Matches(CopyAfter(copy, stmt, SessionRow(stmt, row, now)), SessionRow(stmt, row, now))
  {}

  lemma TargetedAgrees(cache: seq<Info>, ss: SessionTable, stmt: Stmt, now: nat)
    requires Agree(cache, ss) && !stmt.AddSession? && !stmt.RemoveSession? && !stmt.ResetActive?
    requires stmt.ReleaseSession? && stmt.sid in ss ==> ss[stmt.sid].activeTasks >= 1
    ensures Agree(CacheAfter(cache, stmt, SessionsAfter(ss, stmt, now)), SessionsAfter(ss, stmt, now))
  {
    var target := SessionTarget(stmt);
    if target.Some? && target.value in ss {
      var id := target.value;
      var at := FirstIndex(cache, id);
      assert at.Some?;
      var row := SessionRow(stmt, ss[id], now);
      CopyMatches(cache[at.value].row, ss[id], stmt, now);
      UpdateAgrees(cache, ss, at.value, CopyAfter(cache[at.value].row, stmt, row), row);
    }
  }

  lemma AddAgrees(cache: seq<Info>, ss: SessionTable, id: SessionId, row: Session)
    requires Agree(cache, ss) && id !in ss
    ensures Agree(cache + [Info(id, row)], ss[id := row])
  {
    var cache', ss' := cache + [Info(id, row)], ss[id := row];
    forall k | k in ss'
      ensures exists i :: 0 <= i < |cache'| && cache'[i].id == k
    {
      if k == id {
        assert cache'[|cache|].id == k;
      } else {
        var i :| 0 <= i < |cache| && cache[i].id == k;
        assert cache'[i].id == k;
      }
    }
  }

  lemma RequestInSync(s: State, stmt: Stmt, cache: seq<Info>)
    requires Enabled(s, Request(stmt)) && InSync(s, cache)
    ensures var ss := SessionsAfter(s.db.sessions, stmt, s.now);
            Agree(CacheAfter(cache, stmt, ss), ss)
  {
    match stmt
    case AddSession(id, l, token, jar) => AddAgrees(cache, s.db.sessions, id, NewSession(l, token, jar, s.now));
    case RemoveSession(id) => RemoveAgrees(cache, s.db.sessions, id);
    case _ => TargetedAgrees(cache, s.db.sessions, stmt, s.now);
  }

  /** The accounting invariant is what keeps the vector's unclamped counter equal to the table's
      clamped one. */
  lemma StepInSync(s: State, a: Action, cache: seq<Info>, cache': seq<Info>)
    requires Accounting.Inv(s) && Enabled(s, a) && InSync(s, cache) && CacheStep(s, a, cache, cache')
    ensures InSync(Step(s, a), cache')
  {
    match a
    case Work(w, stmt, ok, next) =>
      Accounting.WorkSession(s.workers[w], stmt, ok, next);
      if ok {
        if stmt.ReleaseSession? && stmt.sid in s.db.sessions {
          Accounting.ReleaseIsCounted(s, w, stmt, ok, next);
        }
        TargetedAgrees(cache, s.db.sessions, stmt, s.now);
      }
    case Request(stmt) => RequestInSync(s, stmt, cache);
    case _ =>
  }

  /** In every state of every such run outside startup, the vector agrees with the table. */
  lemma {:induction false} RunInSync(n: nat, states: seq<State>, actions: seq<Action>, caches: seq<seq<Info>>)
    requires IsRun(states, actions) && states[0] == Start(n) && |caches| == |states|
    requires forall i :: 0 <= i < |actions| ==> CacheStep(states[i], actions[i], caches[i], caches[i + 1])
    ensures forall i :: 0 <= i < |states| ==> InSync(states[i], caches[i])
    decreases |actions|
  {
    if actions != [] {
      var k := |actions| - 1;
      RunInSync(n, states[..k + 1], actions[..k], caches[..k + 1]);
      assert forall i :: 0 <= i <= k ==> states[..k + 1][i] == states[i] && caches[..k + 1][i] == caches[i];
      Accounting.RunIsBalanced(n, states, actions);
      StepInSync(states[k], actions[k], caches[k], caches[k + 1]);
    }
  }
}
