/** The session pool's capacity counter and totals, over every interleaving, restart and failed
    release. */
module Accounting {
  import opened Wrappers
  import opened Tables
  import opened Gateway

  /** The workers between pick and release on a session. */
  function Holders(workers: seq<Pc>, sid: SessionId): set<nat> {
    set w: nat | w < |workers| && SessionOf(workers[w]) == Some(sid)
  }

  lemma HoldersMove(workers: seq<Pc>, w: nat, next: Pc, sid: SessionId)
    requires w < |workers|
    ensures Holders(workers[w := next], sid)
         == if SessionOf(next) == Some(sid) then Holders(workers, sid) + {w} else Holders(workers, sid) - {w}
  {}

  lemma HoldersAfter(workers: seq<Pc>, w: nat, next: Pc, sid: SessionId)
    requires w < |workers|
    ensures |Holders(workers[w := next], sid)|
         == |Holders(workers, sid)| - (if SessionOf(workers[w]) == Some(sid) then 1 else 0)
            + (if SessionOf(next) == Some(sid) then 1 else 0)
  {
    HoldersMove(workers, w, next, sid);
    var before := Holders(workers, sid);
    assert w in before <==> SessionOf(workers[w]) == Some(sid);
    hide Holders, SessionOf;
    assert w in before ==> before == (before - {w}) + {w};
  }

  /** One row against its ledger: outcomes add up to the total, and every pick is accounted for as
      finished, still counted as active, or forgotten by a restart. */
  ghost predicate RowBalanced(row: Session, l: Ledger) {
    && 0 <= row.activeTasks <= CAPACITY
    && row.successCount >= 0 && row.failCount >= 0
    && row.totalTasks == row.successCount + row.failCount
    && l.picks == row.successCount + row.failCount + row.activeTasks + l.lost
  }

  ghost predicate Balanced(s: State) {
    forall sid :: sid in s.db.sessions ==> sid in s.ledger && RowBalanced(s.db.sessions[sid], s.ledger[sid])
  }

  /** The counter is the number of holders plus the releases that failed since the last restart. */
  ghost predicate Counted(s: State) {
    s.phase.Up? ==> forall sid :: sid in s.db.sessions ==>
      s.db.sessions[sid].activeTasks == |Holders(s.workers, sid)| + LedgerOf(s.ledger, sid).leaks
  }

  /** No session, removed ones included, ever has more holders than its capacity, and every held
      session is one the pool has known. */
  ghost predicate Capped(s: State) {
    && (forall sid :: |Holders(s.workers, sid)| <= CAPACITY)
    && (forall w :: 0 <= w < |s.workers| && SessionOf(s.workers[w]).Some? ==> SessionOf(s.workers[w]).value in s.ledger)
  }

  ghost predicate Rebooted(s: State) {
    s.phase.Booting? ==>
      (forall w :: 0 <= w < |s.workers| ==> s.workers[w].Idle?) &&
      (s.phase.done > 0 ==> forall sid :: sid in s.db.sessions ==>
        s.db.sessions[sid].activeTasks == 0 && LedgerOf(s.ledger, sid).leaks == 0)
  }

  ghost predicate Inv(s: State) {
    Balanced(s) && Counted(s) && Capped(s) && Rebooted(s)
  }

  lemma NoHolders(workers: seq<Pc>, sid: SessionId)
    requires forall w :: 0 <= w < |workers| ==> workers[w].Idle?
    ensures Holders(workers, sid) == {}
  {}

  lemma StageSession(pc: Pc, stmt: Stmt, ok: bool, next: Pc)
    requires pc.Running? && Follows(pc, stmt, ok, next)
    ensures SessionOf(next) == SessionOf(pc) && !stmt.PickSession? && !stmt.ReleaseSession?
    ensures !stmt.AddSession? && !stmt.RemoveSession? && !stmt.ToggleSession? && !stmt.ResetActive?
  {}

  /** A worker's move changes the session it holds only by a pick or a release. */
  lemma WorkSession(pc: Pc, stmt: Stmt, ok: bool, next: Pc)
    requires Follows(pc, stmt, ok, next)
    ensures if stmt.PickSession? && ok then SessionOf(pc) == None && SessionOf(next) == Some(stmt.sid)
            else if stmt.ReleaseSession? then SessionOf(pc) == Some(stmt.sid) && SessionOf(next) == None
            else SessionOf(next) == SessionOf(pc)
    ensures !stmt.AddSession? && !stmt.RemoveSession? && !stmt.ToggleSession? && !stmt.ResetActive?
  {
    if pc.Running? {
      StageSession(pc, stmt, ok, next);
      hide Follows;
    }
  }

  /** The clamp in the release statement never fires: whoever releases is still counted. */
  lemma ReleaseIsCounted(s: State, w: nat, stmt: Stmt, ok: bool, next: Pc)
    requires Inv(s) && Enabled(s, Work(w, stmt, ok, next)) && stmt.ReleaseSession? && stmt.sid in s.db.sessions
    ensures s.db.sessions[stmt.sid].activeTasks >= 1
    ensures ReleasedRow(s.db.sessions[stmt.sid], stmt.success, stmt.error).activeTasks
         == s.db.sessions[stmt.sid].activeTasks - 1
  {
    WorkSession(s.workers[w], stmt, ok, next);
    var holders := Holders(s.workers, stmt.sid);
    assert w in holders;
    assert |holders| >= 1 by {
      assert holders == (holders - {w}) + {w};
    }
  }

  /** What a worker's statement on a session does to its ledger. */
  function LedgerRow(stmt: Stmt, ok: bool, l: Ledger): Ledger {
    if stmt.PickSession? && ok then l.(picks := l.picks + 1)
    else if stmt.ReleaseSession? && !ok then l.(leaks := l.leaks + 1)
    else l
  }

  /** What a worker statement does to one row and its ledger. */
  lemma WorkFrame(s: State, w: nat, stmt: Stmt, ok: bool, next: Pc, sid: SessionId)
    requires Enabled(s, Work(w, stmt, ok, next)) && sid in s.db.sessions && sid in s.ledger
    ensures var s' := Step(s, Work(w, stmt, ok, next));
            && sid in s'.db.sessions && sid in s'.ledger
            && s'.workers == s.workers[w := next]
            && s'.db.sessions[sid] == (if ok && SessionTarget(stmt) == Some(sid)
                                       then SessionRow(stmt, s.db.sessions[sid], s.now) else s.db.sessions[sid])
            && s'.ledger[sid] == (if SessionTarget(stmt) == Some(sid)
                                  then LedgerRow(stmt, ok, s.ledger[sid]) else s.ledger[sid])
            && (stmt.PickSession? && stmt.sid == sid && ok ==> s.db.sessions[sid].activeTasks < CAPACITY)
  {
    WorkSession(s.workers[w], stmt, ok, next);
    hide Follows, TasksAfter;
  }

  /** One statement on one session, held by `held` workers before it. */
  lemma MoveBalances(stmt: Stmt, ok: bool, row: Session, l: Ledger, now: nat, held: nat)
    requires RowBalanced(row, l) && row.activeTasks == held + l.leaks
    requires stmt.PickSession? && ok ==> row.activeTasks < CAPACITY
    requires stmt.ReleaseSession? ==> held >= 1
    ensures var after, l' := if ok then SessionRow(stmt, row, now) else row, LedgerRow(stmt, ok, l);
            && RowBalanced(after, l')
            && after.activeTasks
               == held + (if stmt.PickSession? && ok then 1 else if stmt.ReleaseSession? then -1 else 0) + l'.leaks
  {}

  lemma WorkKeepsSession(s: State, w: nat, stmt: Stmt, ok: bool, next: Pc, sid: SessionId)
    requires Inv(s) && Enabled(s, Work(w, stmt, ok, next)) && sid in s.db.sessions
    ensures var s' := Step(s, Work(w, stmt, ok, next));
            && sid in s'.db.sessions && sid in s'.ledger
            && RowBalanced(s'.db.sessions[sid], s'.ledger[sid])
            && s'.db.sessions[sid].activeTasks == |Holders(s'.workers, sid)| + s'.ledger[sid].leaks
  {
    WorkSession(s.workers[w], stmt, ok, next);
    HoldersAfter(s.workers, w, next, sid);
    WorkFrame(s, w, stmt, ok, next, sid);
    hide Follows, Returns, Exec, Holders, Capped, Rebooted, Step, RowBalanced, SessionRow, LedgerRow, SessionOf;
    assert RowBalanced(s.db.sessions[sid], s.ledger[sid]);
    if SessionTarget(stmt) == Some(sid) {
      MoveBalances(stmt, ok, s.db.sessions[sid], s.ledger[sid], s.now, |Holders(s.workers, sid)|);
    }
  }

  lemma WorkKeepsCap(s: State, w: nat, stmt: Stmt, ok: bool, next: Pc, sid: SessionId)
    requires Inv(s) && Enabled(s, Work(w, stmt, ok, next))
    ensures |Holders(s.workers[w := next], sid)| <= CAPACITY
  {
    WorkSession(s.workers[w], stmt, ok, next);
    HoldersAfter(s.workers, w, next, sid);
    hide Follows, Holders;
    if stmt.PickSession? && ok && stmt.sid == sid {
      assert Available(s.db.sessions[sid]);
    }
  }

  lemma WorkKeepsInv(s: State, w: nat, stmt: Stmt, ok: bool, next: Pc)
    requires Inv(s) && Enabled(s, Work(w, stmt, ok, next))
    ensures Inv(Step(s, Work(w, stmt, ok, next)))
  {
    var s' := Step(s, Work(w, stmt, ok, next));
    WorkSession(s.workers[w], stmt, ok, next);
    assert s'.db.sessions.Keys == s.db.sessions.Keys && s.ledger.Keys <= s'.ledger.Keys;
    assert s'.workers == s.workers[w := next] && s'.phase.Up?;
    assert SessionOf(next).Some? ==> SessionOf(next).value in s'.ledger;
    hide Follows, Returns, Exec, LedgerAfter, Holders, RowBalanced, SessionOf;
    forall sid | sid in s'.db.sessions
      ensures sid in s'.ledger && RowBalanced(s'.db.sessions[sid], s'.ledger[sid])
      ensures s'.db.sessions[sid].activeTasks == |Holders(s'.workers, sid)| + s'.ledger[sid].leaks
    {
      WorkKeepsSession(s, w, stmt, ok, next, sid);
    }
    forall sid
      ensures |Holders(s'.workers, sid)| <= CAPACITY
    {
      WorkKeepsCap(s, w, stmt, ok, next, sid);
    }
  }

  lemma AddKeepsInv(s: State, stmt: Stmt)
    requires Inv(s) && Enabled(s, Request(stmt)) && stmt.AddSession?
    ensures Inv(Step(s, Request(stmt)))
  {
    var s' := Step(s, Request(stmt));
    assert s'.workers == s.workers;
    assert Holders(s.workers, stmt.sid) == {};
    hide Holders;
  }

  lemma RequestKeepsInv(s: State, stmt: Stmt)
    requires Inv(s) && Enabled(s, Request(stmt))
    ensures Inv(Step(s, Request(stmt)))
  {
    hide Holders;
    if stmt.AddSession? {
      AddKeepsInv(s, stmt);
    } else {
      var s' := Step(s, Request(stmt));
      assert s'.workers == s.workers && s'.ledger == s.ledger;
      forall sid | sid in s'.db.sessions
        ensures sid in s.db.sessions && s'.db.sessions[sid].activeTasks == s.db.sessions[sid].activeTasks
        ensures RowBalanced(s'.db.sessions[sid], s.ledger[sid])
      {}
      hide Step, Enabled, RowBalanced;
    }
  }

  lemma CrashKeepsInv(s: State)
    requires Inv(s)
    ensures Inv(Step(s, Crash))
  {
    var s' := Step(s, Crash);
    forall sid
      ensures Holders(s'.workers, sid) == {}
    {
      NoHolders(s'.workers, sid);
    }
    hide Holders;
  }

  lemma RecoverKeepsInv(s: State)
    requires Inv(s) && Enabled(s, Recover)
    ensures Inv(Step(s, Recover))
  {
    var s' := Step(s, Recover);
    assert s'.workers == s.workers;
    forall sid
      ensures Holders(s'.workers, sid) == {}
    {
      NoHolders(s'.workers, sid);
    }
    hide Holders;
    forall sid | sid in s'.db.sessions
      ensures sid in s'.ledger && RowBalanced(s'.db.sessions[sid], s'.ledger[sid])
    {}
  }

  lemma RestartKeepsInv(s: State, a: Action)
    requires Inv(s) && Enabled(s, a) && (a.Crash? || a.Recover?)
    ensures Inv(Step(s, a))
  {
    hide Inv, Enabled, Step;
    match a
    case Crash => CrashKeepsInv(s);
    case Recover => RecoverKeepsInv(s);
  }

  /** Every action keeps the accounting invariant. */
  lemma StepKeepsInv(s: State, a: Action)
    requires Inv(s) && Enabled(s, a)
    ensures Inv(Step(s, a))
  {
    match a
    case Work(w, stmt, ok, next) => WorkKeepsInv(s, w, stmt, ok, next);
    case Request(stmt) => RequestKeepsInv(s, stmt);
    case Tick =>
    case _ => RestartKeepsInv(s, a);
  }

  /** In every reachable state, whatever failed on the way, no session has more than two holders, the totals add
      up, and every pick is accounted for. Outside startup the counter of a row is the number of its holders plus
      the failed releases; between a crash and the reset it still counts the holders that died. */
  lemma {:induction false} RunIsBalanced(n: nat, states: seq<State>, actions: seq<Action>)
    requires IsRun(states, actions) && states[0] == Start(n)
    ensures forall i :: 0 <= i < |states| ==> Inv(states[i])
    decreases |actions|
  {
    if actions == [] {
      forall sid
        ensures Holders(states[0].workers, sid) == {}
      {
        NoHolders(states[0].workers, sid);
      }
    } else {
      var k := |actions| - 1;
      RunIsBalanced(n, states[..k + 1], actions[..k]);
      assert forall i :: 0 <= i <= k ==> states[..k + 1][i] == states[i];
      StepKeepsInv(states[k], actions[k]);
    }
  }

  // When releases work, the counter is exact

  ghost predicate ReleasesWork(actions: seq<Action>) {
    forall i :: 0 <= i < |actions| && actions[i].Work? && actions[i].stmt.ReleaseSession? ==> actions[i].ok
  }

  ghost predicate NoLeaks(s: State) {
    forall sid :: sid in s.ledger ==> s.ledger[sid].leaks == 0
  }

  lemma StepLeaksNothing(s: State, a: Action)
    requires Enabled(s, a) && NoLeaks(s)
    requires a.Work? && a.stmt.ReleaseSession? ==> a.ok
    ensures NoLeaks(Step(s, a))
  {
    hide Exec, Follows, Returns;
    match a
    case Work(w, stmt, ok, next) =>
    case Request(stmt) => assert !stmt.ReleaseSession?;
    case _ =>
  }

  lemma {:induction false} NothingLeaks(n: nat, states: seq<State>, actions: seq<Action>)
    requires IsRun(states, actions) && states[0] == Start(n) && ReleasesWork(actions)
    ensures forall i :: 0 <= i < |states| ==> NoLeaks(states[i])
    decreases |actions|
  {
    if actions != [] {
      var k := |actions| - 1;
      NothingLeaks(n, states[..k + 1], actions[..k]);
      assert forall i :: 0 <= i <= k ==> states[..k + 1][i] == states[i];
      StepLeaksNothing(states[k], actions[k]);
    }
  }

  /** If every release statement works, each row's `active_tasks` is exactly the number of workers
      between pick and release on it, at all times outside startup. */
  lemma CounterIsExact(n: nat, states: seq<State>, actions: seq<Action>, i: nat, sid: SessionId)
    requires IsRun(states, actions) && states[0] == Start(n) && ReleasesWork(actions)
    requires i < |states| && states[i].phase.Up? && sid in states[i].db.sessions
    ensures states[i].db.sessions[sid].activeTasks == |Holders(states[i].workers, sid)| <= CAPACITY
  {
    RunIsBalanced(n, states, actions);
    NothingLeaks(n, states, actions);
    assert Inv(states[i]) && NoLeaks(states[i]);
  }
}
