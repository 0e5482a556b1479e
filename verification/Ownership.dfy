/** Who may touch a task: single ownership, absorbing statuses, and the agreement between the
    delivery outbox and the task table, over every interleaving. */
module Ownership {
  import opened Wrappers
  import opened Tables
  import opened Gateway

  /** What a worker may rely on about the task it holds. */
  ghost predicate LocalOk(pc: Pc, row: Task, announced: bool) {
    && !announced
    && !row.status.Queued?
    && (Writing(pc) ==> Transient(row.status) || row.status.Cancelled?)
    && (pc.Releasing? && pc.outcome.UserCancelled? ==> row.status.Cancelled?)
    && (pc.Inserting? ==> row.status == pc.event && Terminal(pc.event) && row.webhookUrl.Some?)
  }

  ghost predicate HoldersOk(s: State) {
    forall w :: 0 <= w < |s.workers| && !s.workers[w].Idle? ==>
      s.workers[w].t in s.db.tasks &&
      LocalOk(s.workers[w], s.db.tasks[s.workers[w].t], s.workers[w].t in s.db.outbox)
  }

  /** No task is held twice. */
  ghost predicate Disjoint(s: State) {
    forall v, w :: 0 <= v < w < |s.workers| && !s.workers[v].Idle? && !s.workers[w].Idle? ==>
      s.workers[v].t != s.workers[w].t
  }

  /** Every announced event is the status its task has, and the task asked for a webhook. */
  ghost predicate OutboxOk(db: Db) {
    forall t :: t in db.outbox ==>
      t in db.tasks && db.tasks[t].status == db.outbox[t] && Terminal(db.outbox[t]) && db.tasks[t].webhookUrl.Some?
  }

  ghost predicate RowOk(row: Task) {
    && (row.status.Succeeded? ==> row.videoUrl.Some? && row.finishedAt.Some?)
    && (row.status.Failed? ==> row.errorMessage.Some? && row.finishedAt.Some?)
    && (row.status.Cancelled? ==> row.finishedAt.Some?)
  }

  ghost predicate RowsOk(ts: TaskTable) {
    forall t :: t in ts ==> RowOk(ts[t])
  }

  ghost predicate QuietBoot(s: State) {
    s.phase.Booting? ==> forall w :: 0 <= w < |s.workers| ==> s.workers[w].Idle?
  }

  ghost predicate Inv(s: State) {
    HoldersOk(s) && Disjoint(s) && OutboxOk(s.db) && RowsOk(s.db.tasks) && QuietBoot(s)
  }

  ghost predicate HeldBySomeone(s: State, t: TaskId) {
    exists w :: 0 <= w < |s.workers| && TaskOf(s.workers[w]) == Some(t)
  }

  /** Some worker may still write the status of `t`. */
  ghost predicate BeingWritten(s: State, t: TaskId) {
    exists w :: 0 <= w < |s.workers| && TaskOf(s.workers[w]) == Some(t) && Writing(s.workers[w])
  }

  // One worker statement

  /** The row a statement writes, if it works. */
  function Written(stmt: Stmt, ok: bool): Option<TaskId> {
    if ok then TaskTarget(stmt) else None
  }

  /** A worker statement updates at most the row of the task the worker holds or claims. */
  lemma WorkFrame(s: State, w: nat, stmt: Stmt, ok: bool, next: Pc)
    requires Enabled(s, Work(w, stmt, ok, next))
    ensures var s' := Step(s, Work(w, stmt, ok, next));
            && s'.db.tasks.Keys == s.db.tasks.Keys
            && (forall t :: t in s.db.tasks && Written(stmt, ok) != Some(t) ==> s'.db.tasks[t] == s.db.tasks[t])
            && (forall t :: Written(stmt, ok) == Some(t) ==> TaskOf(next) == Some(t) || TaskOf(s.workers[w]) == Some(t))
            && (forall t :: t in s'.db.outbox <==> t in s.db.outbox || (ok && stmt.InsertDelivery? && stmt.t == t))
            && (forall t :: t in s.db.outbox ==> s'.db.outbox[t] == s.db.outbox[t])
  {
    WrittenIsHeld(s, w, stmt, ok, next);
    hide Follows, Returns;
  }

  lemma WrittenIsHeld(s: State, w: nat, stmt: Stmt, ok: bool, next: Pc)
    requires Enabled(s, Work(w, stmt, ok, next))
    ensures Written(stmt, ok).Some? ==> Written(stmt, ok) == TaskOf(next) || Written(stmt, ok) == TaskOf(s.workers[w])
    ensures Written(stmt, ok).Some? && stmt.ClaimTask? ==> stmt.t in s.db.tasks
    ensures !stmt.Enqueue? && !stmt.RequeueStuck?
  {}

  /** What a statement that worked told the worker about its own row. */
  ghost predicate Informed(stmt: Stmt, row: Task) {
    && (stmt.ReadStatus? && stmt.cancelled ==> row.status.Cancelled?)
    && (stmt.ReadTask? && stmt.found.Some? ==>
          stmt.found.value == row.status && Terminal(row.status) && row.webhookUrl.Some?)
  }

  function RowAfter(stmt: Stmt, ok: bool, row: Task, now: nat): Task {
    if ok then TaskRow(stmt, row, now) else row
  }

  /** What one move of a worker means for the row of its task. */
  ghost predicate MoveOk(pc: Pc, stmt: Stmt, next: Pc, row: Task, after: Task) {
    && (!next.Idle? ==> !pc.Idle? && next.t == pc.t && LocalOk(next, after, false) && !stmt.InsertDelivery?)
    && (stmt.InsertDelivery? ==>
          !pc.Idle? && stmt.t == pc.t && row.status == stmt.event && Terminal(stmt.event) && row.webhookUrl.Some?)
    && after.webhookUrl == row.webhookUrl
    && (RowOk(row) ==> RowOk(after))
    && (!Writing(pc) ==> TaskTarget(stmt).None?)
  }

  lemma StageStep(pc: Pc, stmt: Stmt, ok: bool, next: Pc, row: Task, now: nat)
    requires pc.Running? && Follows(pc, stmt, ok, next) && LocalOk(pc, row, false) && Informed(stmt, row)
    ensures MoveOk(pc, stmt, next, row, RowAfter(stmt, ok, row, now))
  {}

  lemma LoopStep(pc: Pc, stmt: Stmt, ok: bool, next: Pc, row: Task, now: nat)
    requires !pc.Idle? && !pc.Running? && Follows(pc, stmt, ok, next) && LocalOk(pc, row, false) && Informed(stmt, row)
    ensures MoveOk(pc, stmt, next, row, RowAfter(stmt, ok, row, now))
  {}

  /** One move of a worker, seen from the row of its task. */
  lemma RowStep(pc: Pc, stmt: Stmt, ok: bool, next: Pc, row: Task, now: nat)
    requires !pc.Idle? && Follows(pc, stmt, ok, next) && LocalOk(pc, row, false) && Informed(stmt, row)
    ensures MoveOk(pc, stmt, next, row, RowAfter(stmt, ok, row, now))
  {
    hide Follows, LocalOk, Informed, MoveOk, RowAfter;
    if pc.Running? {
      StageStep(pc, stmt, ok, next, row, now);
    } else {
      LoopStep(pc, stmt, ok, next, row, now);
    }
  }

  lemma WorkInformed(s: State, w: nat, stmt: Stmt, ok: bool, next: Pc)
    requires Inv(s) && Enabled(s, Work(w, stmt, ok, next)) && !s.workers[w].Idle?
    ensures Informed(stmt, s.db.tasks[s.workers[w].t])
  {}

  /** A worker that is idle can only claim, and claims a queued task. */
  lemma ClaimWork(s: State, w: nat, stmt: Stmt, ok: bool, next: Pc)
    requires Enabled(s, Work(w, stmt, ok, next)) && s.workers[w].Idle?
    ensures Written(stmt, ok).None? ==> next.Idle?
    ensures Written(stmt, ok).Some? ==>
      stmt.ClaimTask? && Written(stmt, ok) == Some(stmt.t) && next == Claimed(stmt.t)
      && stmt.t in s.db.tasks && s.db.tasks[stmt.t].status.Queued?
    ensures !stmt.InsertDelivery?
  {}

  lemma HeldTarget(pc: Pc, stmt: Stmt, ok: bool, next: Pc)
    requires !pc.Idle? && Follows(pc, stmt, ok, next)
    ensures TaskTarget(stmt).Some? ==> TaskTarget(stmt) == Some(pc.t)
    ensures !stmt.Enqueue? && !stmt.RequeueStuck?
  {}

  /** In the table, the row of the held task becomes what the statement makes of it. */
  lemma HeldRow(s: State, w: nat, stmt: Stmt, ok: bool, next: Pc)
    requires Enabled(s, Work(w, stmt, ok, next)) && !s.workers[w].Idle? && s.workers[w].t in s.db.tasks
    ensures var t := s.workers[w].t;
            Step(s, Work(w, stmt, ok, next)).db.tasks[t] == RowAfter(stmt, ok, s.db.tasks[t], s.now)
  {
    HeldTarget(s.workers[w], stmt, ok, next);
    hide Follows, Returns, SessionsAfter, OutboxAfter, LedgerAfter;
    if TaskTarget(stmt).None? {
      hide TaskTarget;
      NoTarget(stmt, s.db.tasks[s.workers[w].t], s.now);
    } else {
      hide TaskRow;
    }
  }

  lemma NoTarget(stmt: Stmt, row: Task, now: nat)
    requires TaskTarget(stmt).None?
    ensures TaskRow(stmt, row, now) == row
  {}

  lemma HolderKnows(s: State, w: nat)
    requires Inv(s) && w < |s.workers| && !s.workers[w].Idle?
    ensures var t := s.workers[w].t;
            t in s.db.tasks && t !in s.db.outbox && LocalOk(s.workers[w], s.db.tasks[t], false)
  {
    hide LocalOk, OutboxOk, RowsOk, Disjoint, QuietBoot;
    var t := s.workers[w].t;
    assert LocalOk(s.workers[w], s.db.tasks[t], t in s.db.outbox);
    LocalIsUnannounced(s.workers[w], s.db.tasks[t], t in s.db.outbox);
  }

  lemma LocalIsUnannounced(pc: Pc, row: Task, announced: bool)
    requires LocalOk(pc, row, announced)
    ensures !announced
  {}

  /** A worker that holds a task moves that task's row, as `RowStep` says. */
  lemma HeldWork(s: State, w: nat, stmt: Stmt, ok: bool, next: Pc)
    requires Inv(s) && Enabled(s, Work(w, stmt, ok, next)) && !s.workers[w].Idle?
    ensures var t := s.workers[w].t;
            && t in s.db.tasks && t !in s.db.outbox
            && Step(s, Work(w, stmt, ok, next)).db.tasks[t] == RowAfter(stmt, ok, s.db.tasks[t], s.now)
            && MoveOk(s.workers[w], stmt, next, s.db.tasks[t], RowAfter(stmt, ok, s.db.tasks[t], s.now))
            && (Written(stmt, ok).Some? ==> Written(stmt, ok) == Some(t))
  {
    hide Follows, Returns, Inv, LocalOk, MoveOk, RowAfter, Informed, Step;
    var pc := s.workers[w];
    HolderKnows(s, w);
    WorkInformed(s, w, stmt, ok, next);
    HeldRow(s, w, stmt, ok, next);
    HeldTarget(pc, stmt, ok, next);
    RowStep(pc, stmt, ok, next, s.db.tasks[pc.t], s.now);
  }

  /** The worker's own knowledge survives its own statement. */
  lemma WorkLocal(s: State, w: nat, stmt: Stmt, ok: bool, next: Pc)
    requires Inv(s) && Enabled(s, Work(w, stmt, ok, next)) && !next.Idle?
    ensures var s' := Step(s, Work(w, stmt, ok, next));
            next.t in s'.db.tasks && LocalOk(next, s'.db.tasks[next.t], next.t in s'.db.outbox)
  {
    WorkFrame(s, w, stmt, ok, next);
    if s.workers[w].Idle? {
      ClaimWork(s, w, stmt, ok, next);
      hide Follows, Inv;
    } else {
      HeldWork(s, w, stmt, ok, next);
      hide Follows, Returns, Exec, LocalOk;
    }
  }

  /** A claim takes a task nobody holds; any other move keeps the task. */
  lemma WorkTask(s: State, w: nat, stmt: Stmt, ok: bool, next: Pc, v: nat)
    requires Inv(s) && Enabled(s, Work(w, stmt, ok, next)) && !next.Idle?
    requires v < |s.workers| && v != w && !s.workers[v].Idle?
    ensures s.workers[v].t != next.t
  {
    if s.workers[w].Idle? {
      ClaimWork(s, w, stmt, ok, next);
    } else {
      HeldWork(s, w, stmt, ok, next);
    }
    hide Follows, Returns, Exec;
  }

  lemma WorkKeepsInv(s: State, w: nat, stmt: Stmt, ok: bool, next: Pc)
    requires Inv(s) && Enabled(s, Work(w, stmt, ok, next))
    ensures Inv(Step(s, Work(w, stmt, ok, next)))
  {
    var s' := Step(s, Work(w, stmt, ok, next));
    WorkFrame(s, w, stmt, ok, next);
    assert HoldersOk(s') by {
      forall v | 0 <= v < |s'.workers| && !s'.workers[v].Idle?
        ensures s'.workers[v].t in s'.db.tasks
        ensures LocalOk(s'.workers[v], s'.db.tasks[s'.workers[v].t], s'.workers[v].t in s'.db.outbox)
      {
        if v == w {
          WorkLocal(s, w, stmt, ok, next);
        } else {
          WorkSpares(s, w, stmt, ok, next, v);
        }
      }
    }
    assert Disjoint(s') by {
      forall u, v | 0 <= u < v < |s'.workers| && !s'.workers[u].Idle? && !s'.workers[v].Idle?
        ensures s'.workers[u].t != s'.workers[v].t
      {
        if v == w {
          WorkTask(s, w, stmt, ok, next, u);
        } else if u == w {
          WorkTask(s, w, stmt, ok, next, v);
        }
      }
    }
    WorkKeepsRows(s, w, stmt, ok, next);
  }

  /** A task held by another worker is neither updated nor announced. */
  lemma WorkSpares(s: State, w: nat, stmt: Stmt, ok: bool, next: Pc, v: nat)
    requires Inv(s) && Enabled(s, Work(w, stmt, ok, next))
    requires v < |s.workers| && v != w && !s.workers[v].Idle?
    ensures Written(stmt, ok) != Some(s.workers[v].t)
    ensures !(ok && stmt.InsertDelivery? && stmt.t == s.workers[v].t)
  {
    hide Follows, Returns, HoldersOk, LocalOk, OutboxOk, RowsOk, QuietBoot, RowOk, TaskTarget, Step;
    if s.workers[w].Idle? {
      ClaimWork(s, w, stmt, ok, next);
      if !next.Idle? {
        WorkTask(s, w, stmt, ok, next, v);
      }
    } else {
      HeldWork(s, w, stmt, ok, next);
    }
  }

  lemma ClaimKeepsRows(s: State, w: nat, stmt: Stmt, ok: bool, next: Pc)
    requires Inv(s) && Enabled(s, Work(w, stmt, ok, next)) && s.workers[w].Idle?
    ensures OutboxOk(Step(s, Work(w, stmt, ok, next)).db)
    ensures RowsOk(Step(s, Work(w, stmt, ok, next)).db.tasks)
  {
    WorkFrame(s, w, stmt, ok, next);
    ClaimWork(s, w, stmt, ok, next);
    hide Follows, HoldersOk, Disjoint, QuietBoot;
  }

  lemma HeldKeepsOutbox(s: State, w: nat, stmt: Stmt, ok: bool, next: Pc)
    requires Inv(s) && Enabled(s, Work(w, stmt, ok, next)) && !s.workers[w].Idle?
    ensures OutboxOk(Step(s, Work(w, stmt, ok, next)).db)
  {
    assert stmt.InsertDelivery? ==> Written(stmt, ok).None?;
    hide Follows, Returns, LocalOk, RowOk, RowAfter, HoldersOk, Disjoint, QuietBoot, RowsOk, Exec, TaskTarget;
    WorkFrame(s, w, stmt, ok, next);
    HeldWork(s, w, stmt, ok, next);
    if stmt.InsertDelivery? && ok {
      InsertedEvent(s, w, stmt, ok, next);
    }
  }

  lemma HeldKeepsRows(s: State, w: nat, stmt: Stmt, ok: bool, next: Pc)
    requires Inv(s) && Enabled(s, Work(w, stmt, ok, next)) && !s.workers[w].Idle?
    ensures RowsOk(Step(s, Work(w, stmt, ok, next)).db.tasks)
  {
    hide Follows, Returns, LocalOk, RowOk, RowAfter, HoldersOk, Disjoint, QuietBoot, OutboxOk, Exec, TaskTarget;
    WorkFrame(s, w, stmt, ok, next);
    HeldWork(s, w, stmt, ok, next);
  }

  /** The outbox still shows each announced task's status, and no finished row misses a field. */
  lemma WorkKeepsRows(s: State, w: nat, stmt: Stmt, ok: bool, next: Pc)
    requires Inv(s) && Enabled(s, Work(w, stmt, ok, next))
    ensures OutboxOk(Step(s, Work(w, stmt, ok, next)).db)
    ensures RowsOk(Step(s, Work(w, stmt, ok, next)).db.tasks)
  {
    hide Inv, Step, Follows, Returns;
    if s.workers[w].Idle? {
      ClaimKeepsRows(s, w, stmt, ok, next);
    } else {
      HeldKeepsOutbox(s, w, stmt, ok, next);
      HeldKeepsRows(s, w, stmt, ok, next);
    }
  }

  lemma InsertedEvent(s: State, w: nat, stmt: Stmt, ok: bool, next: Pc)
    requires Enabled(s, Work(w, stmt, ok, next)) && stmt.InsertDelivery? && ok && stmt.t !in s.db.outbox
    ensures Step(s, Work(w, stmt, ok, next)).db.outbox == s.db.outbox[stmt.t := stmt.event]
  {}

  // Every action

  lemma RequestKeepsInv(s: State, stmt: Stmt)
    requires Inv(s) && Enabled(s, Request(stmt))
    ensures Inv(Step(s, Request(stmt)))
  {
    var s' := Step(s, Request(stmt));
    assert s'.db.outbox == s.db.outbox && s'.workers == s.workers;
    forall t | t in s.db.tasks
      ensures t in s'.db.tasks
      ensures s'.db.tasks[t] == s.db.tasks[t] || s'.db.tasks[t] == CancelledRow(s.db.tasks[t], s.now)
    {}
    assert HoldersOk(s');
    assert OutboxOk(s'.db);
    assert RowsOk(s'.db.tasks);
  }

  lemma RecoverFrame(s: State)
    requires Enabled(s, Recover)
    ensures var s' := Step(s, Recover);
            && s'.db.outbox == s.db.outbox && s'.workers == s.workers && s'.db.tasks.Keys == s.db.tasks.Keys
            && forall t :: t in s.db.tasks ==>
                 s'.db.tasks[t] == s.db.tasks[t] || s'.db.tasks[t] == RecoveredRow(s.db.tasks[t], s.now)
  {}

  lemma RecoverKeepsInv(s: State)
    requires Inv(s) && Enabled(s, Recover)
    ensures Inv(Step(s, Recover))
  {
    RecoverFrame(s);
    var s' := Step(s, Recover);
    hide Exec;
    assert OutboxOk(s'.db);
    assert RowsOk(s'.db.tasks);
  }

  /** Every action of the gateway, crash and recovery included, keeps the ownership invariant. */
  lemma StepKeepsInv(s: State, a: Action)
    requires Inv(s) && Enabled(s, a)
    ensures Inv(Step(s, a))
  {
    match a
    case Work(w, stmt, ok, next) => WorkKeepsInv(s, w, stmt, ok, next);
    case Request(stmt) => RequestKeepsInv(s, stmt);
    case Recover => RecoverKeepsInv(s);
    case _ =>
  }

  /** Safety over whole runs: in every state a fresh gateway with any number of workers can reach,
      each held task has exactly one holder, no held task is queued or announced, and the outbox
      agrees with the task table. */
  lemma {:induction false} RunIsSafe(n: nat, states: seq<State>, actions: seq<Action>)
    requires IsRun(states, actions) && states[0] == Start(n)
    ensures forall i :: 0 <= i < |states| ==> Inv(states[i])
    decreases |actions|
  {
    if actions != [] {
      var k := |actions| - 1;
      RunIsSafe(n, states[..k + 1], actions[..k]);
      assert forall i :: 0 <= i <= k ==> states[..k + 1][i] == states[i];
      StepKeepsInv(states[k], actions[k]);
    }
  }

  lemma QueuedIsFree(s: State, t: TaskId)
    requires Inv(s) && t in s.db.tasks && s.db.tasks[t].status.Queued?
    ensures !HeldBySomeone(s, t)
  {}

  // Terminal statuses

  /** A worker that may not write a task now cannot come to: it would have to claim it. */
  lemma WorkAbsorbs(s: State, w: nat, stmt: Stmt, ok: bool, next: Pc, t: TaskId)
    requires Inv(s) && Enabled(s, Work(w, stmt, ok, next))
    requires t in s.db.tasks && !s.db.tasks[t].status.Queued?
    requires !(TaskOf(s.workers[w]) == Some(t) && Writing(s.workers[w]))
    ensures Written(stmt, ok) != Some(t)
    ensures !(TaskOf(next) == Some(t) && Writing(next))
  {
    if s.workers[w].Idle? {
      ClaimWork(s, w, stmt, ok, next);
    } else {
      HeldWork(s, w, stmt, ok, next);
    }
    hide Follows, Returns, Exec;
  }

  /** A row that no worker may write keeps a terminal status through every action. */
  lemma TerminalAbsorbs(s: State, a: Action, t: TaskId)
    requires Inv(s) && Enabled(s, a)
    requires t in s.db.tasks && Terminal(s.db.tasks[t].status) && !BeingWritten(s, t)
    ensures t in Step(s, a).db.tasks && !BeingWritten(Step(s, a), t)
    ensures Step(s, a).db.tasks[t] == s.db.tasks[t]
  {
    var s' := Step(s, a);
    match a
    case Work(w, stmt, ok, next) =>
      assert !(TaskOf(s.workers[w]) == Some(t) && Writing(s.workers[w]));
      WorkAbsorbs(s, w, stmt, ok, next, t);
      WorkFrame(s, w, stmt, ok, next);
      hide Follows, Returns, Exec, LocalOk;
      assert forall v :: 0 <= v < |s'.workers| && v != w ==> s'.workers[v] == s.workers[v];
    case Request(stmt) =>
      assert s'.workers == s.workers;
    case Recover =>
      assert s'.workers == s.workers;
    case Crash =>
    case Tick =>
  }

  /** `succeeded` and `failed` are never in the hands of a writer, so they never change. */
  lemma FinishedAbsorbs(s: State, a: Action, t: TaskId)
    requires Inv(s) && Enabled(s, a)
    requires t in s.db.tasks && (s.db.tasks[t].status.Succeeded? || s.db.tasks[t].status.Failed?)
    ensures t in Step(s, a).db.tasks && Step(s, a).db.tasks[t] == s.db.tasks[t]
  {
    assert !BeingWritten(s, t);
    TerminalAbsorbs(s, a, t);
  }

  /** An announced task is settled: its row never changes again. */
  lemma AnnouncedIsSettled(s: State, a: Action, t: TaskId)
    requires Inv(s) && Enabled(s, a) && t in s.db.outbox
    ensures t in Step(s, a).db.outbox && Step(s, a).db.outbox[t] == s.db.outbox[t]
    ensures Step(s, a).db.tasks[t] == s.db.tasks[t] && s.db.tasks[t].status == s.db.outbox[t]
  {
    assert !BeingWritten(s, t);
    TerminalAbsorbs(s, a, t);
  }
}
