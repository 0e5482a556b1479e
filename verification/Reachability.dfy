/** Continuations of a gateway state, and the states a fresh gateway can reach. */
module Reachability {
  import opened Wrappers
  import opened Tables
  import opened Gateway
  import Ownership

  /** The actions, one after the other, lead from `s` to `s'`. */
  ghost predicate Leads(s: State, actions: seq<Action>, s': State)
    decreases |actions|
  {
    if actions == [] then s' == s
    else Enabled(s, actions[0]) && Leads(Step(s, actions[0]), actions[1..], s')
  }

  lemma {:induction false} LeadsOn(s: State, actions: seq<Action>, middle: State, more: seq<Action>, s': State)
    requires Leads(s, actions, middle) && Leads(middle, more, s')
    ensures Leads(s, actions + more, s')
    decreases |actions|
  {
    if actions == [] {
      assert actions + more == more;
    } else {
      assert (actions + more)[1..] == actions[1..] + more;
      LeadsOn(Step(s, actions[0]), actions[1..], middle, more, s');
    }
    hide Enabled, Step;
  }

  lemma LeadsOnce(s: State, a: Action)
    requires Enabled(s, a)
    ensures Leads(s, [a], Step(s, a))
  {
    hide Enabled, Step;
    assert [a][1..] == [];
    assert Leads(Step(s, a), [], Step(s, a));
  }

  /** One more action at the end. */
  lemma LeadsNext(s: State, actions: seq<Action>, middle: State, a: Action)
    requires Leads(s, actions, middle) && Enabled(middle, a)
    ensures Leads(s, actions + [a], Step(middle, a))
  {
    hide Enabled, Step, Leads;
    LeadsOnce(middle, a);
    LeadsOn(s, actions, middle, [a], Step(middle, a));
  }

  lemma {:induction false} RunOf(s: State, actions: seq<Action>, s': State) returns (states: seq<State>)
    requires Leads(s, actions, s')
    ensures IsRun(states, actions) && states[0] == s && states[|actions|] == s'
    decreases |actions|
  {
    hide Enabled, Step;
    if actions == [] {
      states := [s];
    } else {
      var rest := RunOf(Step(s, actions[0]), actions[1..], s');
      states := [s] + rest;
      forall i | 0 <= i < |actions|
        ensures Enabled(states[i], actions[i]) && states[i + 1] == Step(states[i], actions[i])
      {
        if i > 0 {
          assert actions[i] == actions[1..][i - 1] && states[i] == rest[i - 1] && states[i + 1] == rest[i];
        }
      }
    }
  }

  ghost predicate Reachable(n: nat, s: State) {
    exists actions :: Leads(Start(n), actions, s)
  }

  lemma ReachableIsSafe(n: nat, s: State)
    requires Reachable(n, s)
    ensures Ownership.Inv(s)
  {
    var actions :| Leads(Start(n), actions, s);
    var states := RunOf(Start(n), actions, s);
    Ownership.RunIsSafe(n, states, actions);
    assert Ownership.Inv(states[|actions|]);
  }

  // A gateway with one worker, one session and one task

  const T := "t"
  const SID := "s"

  /** One worker at `pc`, holding the only task and the only session. */
  function Scene(row: Task, session: Session, pc: Pc): State {
    State(0, Up, Db(map[T := row], map[SID := session], map[]), [pc], map[SID := Ledger(1, 0, 0)])
  }

  function UpState(n: nat): State {
    Start(n).(phase := Up)
  }

  lemma NoTasksRecovered(now: nat)
    ensures TasksAfter(map[], RequeueStuck, now) == map[]
  {}

  lemma NoSessionsReset(now: nat)
    ensures SessionsAfter(map[], ResetActive, now) == map[]
  {}

  lemma NoLedgerReset(s: State)
    requires s.ledger == map[]
    ensures LedgerAfter(s, ResetActive, true) == map[]
  {}

  lemma RequeueFrame(s: State)
    ensures SessionsAfter(s.db.sessions, RequeueStuck, s.now) == s.db.sessions
    ensures LedgerAfter(s, RequeueStuck, true) == s.ledger
  {}

  lemma ResetFrame(s: State)
    ensures TasksAfter(s.db.tasks, ResetActive, s.now) == s.db.tasks
  {}

  lemma Boots(n: nat)
    ensures Leads(Start(n), [Recover, Recover, Recover], UpState(n))
  {
    hide TasksAfter, SessionsAfter, LedgerAfter, Leads;
    var s := Start(n);
    NoSessionsReset(s.now);
    NoLedgerReset(s);
    ResetFrame(s);
    var s1 := s.(phase := Booting(1));
    assert Step(s, Recover) == s1;
    NoTasksRecovered(s.now);
    RequeueFrame(s1);
    var s2 := s.(phase := Booting(2));
    assert Step(s1, Recover) == s2;
    LeadsOnce(s, Recover);
    LeadsNext(s, [Recover], s1, Recover);
    assert [Recover] + [Recover] == [Recover, Recover];
    LeadsNext(s, [Recover, Recover], s2, Recover);
    assert [Recover, Recover] + [Recover] == [Recover, Recover, Recover];
  }

  const PAYLOAD := Payload("m", "p", 4, "1:1", None, None, None)

  function ClaimedState(url: Option<string>): State {
    State(0, Up, Db(map[T := ClaimedRow(NewTask(PAYLOAD, url, 0), 0)], map[], map[]), [Claimed(T)], map[])
  }

  function EnqueuedState(url: Option<string>): State {
    State(0, Up, Db(map[T := NewTask(PAYLOAD, url, 0)], map[], map[]), [Idle], map[])
  }

  lemma Enqueues(url: Option<string>)
    ensures var a := Request(Enqueue(T, PAYLOAD, url));
            Enabled(UpState(1), a) && Step(UpState(1), a) == EnqueuedState(url)
  {
    assert UpState(1).workers == [Idle];
  }

  lemma Claims(url: Option<string>)
    ensures var a := Work(0, ClaimTask(T), true, Claimed(T));
            Enabled(EnqueuedState(url), a) && Step(EnqueuedState(url), a) == ClaimedState(url)
  {
    var s := EnqueuedState(url);
    var a := Work(0, ClaimTask(T), true, Claimed(T));
    assert Enabled(s, a);
    assert Step(s, a).db.tasks == ClaimedState(url).db.tasks;
  }

  /** Start, one new task, and its claim by the only worker. */
  lemma ClaimedRun(url: Option<string>) returns (actions: seq<Action>)
    ensures Leads(Start(1), actions, ClaimedState(url))
  {
    hide Leads, Enabled, Step, EnqueuedState, ClaimedState;
    Boots(1);
    Enqueues(url);
    Claims(url);
    var boot := [Recover, Recover, Recover];
    LeadsNext(Start(1), boot, UpState(1), Request(Enqueue(T, PAYLOAD, url)));
    actions := boot + [Request(Enqueue(T, PAYLOAD, url))];
    LeadsNext(Start(1), actions, EnqueuedState(url), Work(0, ClaimTask(T), true, Claimed(T)));
    actions := actions + [Work(0, ClaimTask(T), true, Claimed(T))];
  }

  const IDLE_SESSION := NewSession("l", "k", None, 0)

  function PooledState(url: Option<string>): State {
    State(0, Up, Db(ClaimedState(url).db.tasks, map[SID := IDLE_SESSION], map[]), [Claimed(T)],
          map[SID := Ledger(0, 0, 0)])
  }

  lemma AddsSession(url: Option<string>)
    ensures var a := Request(AddSession(SID, "l", "k", None));
            Enabled(ClaimedState(url), a) && Step(ClaimedState(url), a) == PooledState(url)
  {}

  lemma Picks(url: Option<string>, row: Task)
    requires row == ClaimedRow(NewTask(PAYLOAD, url, 0), 0)
    ensures var a := Work(0, PickSession(SID), true, Running(T, SID, Assign));
            Enabled(PooledState(url), a) &&
            Step(PooledState(url), a) == Scene(row, PickedRow(IDLE_SESSION, 0), Running(T, SID, Assign))
  {
    var s := PooledState(url);
    var a := Work(0, PickSession(SID), true, Running(T, SID, Assign));
    var s' := Scene(row, PickedRow(IDLE_SESSION, 0), Running(T, SID, Assign));
    assert Enabled(s, a);
    assert Step(s, a).db.sessions == s'.db.sessions;
    assert Step(s, a).ledger == s'.ledger;
  }

  /** Then one session, and the worker picks it. */
  lemma AssignedRun(url: Option<string>) returns (actions: seq<Action>, row: Task, session: Session)
    ensures Leads(Start(1), actions, Scene(row, session, Running(T, SID, Assign)))
    ensures row == ClaimedRow(NewTask(PAYLOAD, url, 0), 0)
  {
    hide Leads, Enabled, Step, ClaimedState, PooledState, Scene;
    row, session := ClaimedRow(NewTask(PAYLOAD, url, 0), 0), PickedRow(IDLE_SESSION, 0);
    actions := ClaimedRun(url);
    AddsSession(url);
    LeadsNext(Start(1), actions, ClaimedState(url), Request(AddSession(SID, "l", "k", None)));
    actions := actions + [Request(AddSession(SID, "l", "k", None))];
    Picks(url, row);
    LeadsNext(Start(1), actions, PooledState(url), Work(0, PickSession(SID), true, Running(T, SID, Assign)));
    actions := actions + [Work(0, PickSession(SID), true, Running(T, SID, Assign))];
  }

  /** A worker's statement that concerns its task only. */
  predicate TaskOnly(stmt: Stmt) {
    stmt.Local? || stmt.AssignSession? || stmt.SetStatus? || stmt.SetHistory? || stmt.MarkFailed? || stmt.ReadStatus?
  }

  lemma SceneMove(row: Task, session: Session, pc: Pc, stmt: Stmt, ok: bool, next: Pc)
    requires TaskOnly(stmt) && Follows(pc, stmt, ok, next)
    requires TaskTarget(stmt).Some? ==> TaskTarget(stmt).value == T
    requires stmt.ReadStatus? ==> stmt.t == T && stmt.cancelled == (ok && row.status.Cancelled?)
    ensures var s := Scene(row, session, pc);
            var a := Work(0, stmt, ok, next);
            Enabled(s, a) && Step(s, a) == Scene(if ok then TaskRow(stmt, row, 0) else row, session, next)
  {
    var s := Scene(row, session, pc);
    var a := Work(0, stmt, ok, next);
    hide Follows;
    assert s.workers[0 := next] == [next];
    assert Returns(s.db, stmt, ok);
    if TaskTarget(stmt).Some? {
      assert map[T := row][T := TaskRow(stmt, row, 0)] == map[T := TaskRow(stmt, row, 0)];
    }
  }

  /** Such a move at the end of a run. */
  lemma SceneNext(from: State, actions: seq<Action>, row: Task, session: Session, pc: Pc, stmt: Stmt,
                  ok: bool, next: Pc)
    requires TaskOnly(stmt) && Follows(pc, stmt, ok, next)
    requires TaskTarget(stmt).Some? ==> TaskTarget(stmt).value == T
    requires stmt.ReadStatus? ==> stmt.t == T && stmt.cancelled == (ok && row.status.Cancelled?)
    requires Leads(from, actions, Scene(row, session, pc))
    ensures Leads(from, actions + [Work(0, stmt, ok, next)],
                  Scene(if ok then TaskRow(stmt, row, 0) else row, session, next))
  {
    hide Follows, Scene, Leads, Enabled, Step, TaskRow, TaskTarget;
    SceneMove(row, session, pc, stmt, ok, next);
    LeadsNext(from, actions, Scene(row, session, pc), Work(0, stmt, ok, next));
  }
}
