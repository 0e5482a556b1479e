/** What becomes of a task row and a session row under the statements of the whole gateway. */
module RowHistory {
  import opened Wrappers
  import opened Tables
  import opened Gateway
  import opened Ownership

  /** What the client sent and when stays; any change stamps the row. */
  ghost predicate Remembers(row: Task, after: Task, now: nat) {
    && after.payload == row.payload && after.webhookUrl == row.webhookUrl && after.createdAt == row.createdAt
    && (after != row ==> after.updatedAt == now)
  }

  lemma StatementRemembers(stmt: Stmt, row: Task, now: nat)
    ensures Remembers(row, TaskRow(stmt, row, now), now)
  {}

  /** Whatever the gateway does, a task row stays in the table with its payload, webhook and creation time, and
      a row that changes carries the time of the change, which is what startup recovery goes by. */
  lemma RowsRemember(s: State, a: Action, t: TaskId)
    requires Enabled(s, a) && t in s.db.tasks
    ensures t in Step(s, a).db.tasks && Remembers(s.db.tasks[t], Step(s, a).db.tasks[t], s.now)
  {
    match a
    case Work(w, stmt, ok, next) =>
      WrittenIsHeld(s, w, stmt, ok, next);
      StatementRemembers(stmt, s.db.tasks[t], s.now);
      hide Follows, Returns, TaskRow;
    case Request(stmt) =>
      StatementRemembers(stmt, s.db.tasks[t], s.now);
      hide TaskRow;
    case _ =>
  }

  /** What a worker's write makes of its row when the statement works, place by place. */
  function Expected(pc: Pc, stmt: Stmt, row: Task, now: nat): Task
    requires !pc.Idle?
  {
    match pc
    case Requeueing(_) => row.(status := Queued, updatedAt := now)
    case Finishing(_, _, url) =>
      if row.status.Cancelled? then row
      else row.(status := Succeeded, videoUrl := Some(url), finishedAt := Some(now), updatedAt := now)
    case MarkingFailed(_, _) =>
      row.(status := Failed, errorMessage := if stmt.MarkFailed? then Some(stmt.message) else None,
           finishedAt := Some(now), updatedAt := now)
    case Running(_, sid, stage) =>
      (match stage
       case Assign => row.(sessionPoolId := Some(sid), updatedAt := now)
       case MarkSubmitting => row.(status := Submitting, updatedAt := now)
       case MarkPolling =>
         row.(status := Polling, historyRecordId := if stmt.SetHistory? then Some(stmt.history) else None,
              updatedAt := now)
       case Progress(_) => row.(status := Polling, updatedAt := now)
       case MarkDownloading(_) => row.(status := Downloading, updatedAt := now)
       case _ => row)
    case _ => row
  }

  lemma StageTakesEffect(pc: Pc, stmt: Stmt, next: Pc, row: Task, now: nat)
    requires pc.Running? && Follows(pc, stmt, true, next)
    ensures TaskRow(stmt, row, now) == Expected(pc, stmt, row, now)
  {}

  /** Every write of the worker loop takes its whole effect, and the places in between write nothing. */
  lemma WritesTakeEffect(pc: Pc, stmt: Stmt, next: Pc, row: Task, now: nat)
    requires !pc.Idle? && Follows(pc, stmt, true, next)
    ensures TaskRow(stmt, row, now) == Expected(pc, stmt, row, now)
  {
    if pc.Running? {
      StageTakesEffect(pc, stmt, next, row, now);
      hide Follows, TaskRow, Expected;
    }
  }

  /** In the table: where the worker is decides what becomes of the row of its task. Success brings the URL it
      got, failure the error, both the time; only a worker without a session queues its task again. */
  lemma WorkTakesEffect(s: State, w: nat, stmt: Stmt, ok: bool, next: Pc)
    requires Inv(s) && Enabled(s, Work(w, stmt, ok, next)) && !s.workers[w].Idle?
    ensures var t, s' := s.workers[w].t, Step(s, Work(w, stmt, ok, next));
            && t in s.db.tasks && t in s'.db.tasks
            && s'.db.tasks[t] == if ok then Expected(s.workers[w], stmt, s.db.tasks[t], s.now) else s.db.tasks[t]
  {
    hide Inv, Returns, Expected, Step, Follows, TaskRow;
    var t := s.workers[w].t;
    HolderKnows(s, w);
    HeldRow(s, w, stmt, ok, next);
    WorkFrame(s, w, stmt, ok, next);
    if ok {
      WritesTakeEffect(s.workers[w], stmt, next, s.db.tasks[t], s.now);
    }
  }

  /** A claim takes an oldest queued task and stamps its start. */
  lemma ClaimIsExplained(s: State, w: nat, stmt: Stmt, ok: bool, next: Pc)
    requires Enabled(s, Work(w, stmt, ok, next)) && s.workers[w].Idle? && !next.Idle?
    ensures var t, s' := next.t, Step(s, Work(w, stmt, ok, next));
            && t in s.db.tasks && s.db.tasks[t].status.Queued?
            && (forall u :: u in s.db.tasks && s.db.tasks[u].status.Queued? ==>
                  s.db.tasks[t].createdAt <= s.db.tasks[u].createdAt)
            && t in s'.db.tasks
            && s'.db.tasks[t] == s.db.tasks[t].(status := Submitting, startedAt := Some(s.now), updatedAt := s.now)
  {}

  predicate Free(row: Session) {
    row.enabled && row.healthy && row.activeTasks < 2
  }

  /** A worker takes a session that is enabled, healthy and has less than two tasks, none of them used longer
      ago; the session counts the task and is stamped. */
  lemma PickIsExplained(s: State, w: nat, sid: SessionId, next: Pc)
    requires Enabled(s, Work(w, PickSession(sid), true, next))
    ensures next.Running? && next.sid == sid && sid in s.db.sessions && Free(s.db.sessions[sid])
    ensures forall other :: other in s.db.sessions && Free(s.db.sessions[other]) ==>
              var mine, others := s.db.sessions[sid].lastUsedAt, s.db.sessions[other].lastUsedAt;
              mine.None? || (others.Some? && mine.value <= others.value)
    ensures var row, s' := s.db.sessions[sid], Step(s, Work(w, PickSession(sid), true, next));
            s'.db.sessions == s.db.sessions[
              sid := row.(activeTasks := row.activeTasks + 1, lastUsedAt := Some(s.now))]
  {}

  /** A worker gives its task back, or stays idle, only if there is nothing to take, or the statement failed. */
  lemma NothingIsExplained(s: State, w: nat, stmt: Stmt, next: Pc)
    requires Enabled(s, Work(w, stmt, true, next))
    ensures s.workers[w].Claimed? && !next.Running? ==>
              forall sid :: sid in s.db.sessions ==> !Free(s.db.sessions[sid])
    ensures s.workers[w].Idle? && next.Idle? ==>
              forall t :: t in s.db.tasks ==> !s.db.tasks[t].status.Queued?
  {}

  /** A release reports success exactly after a success, and only a success counts as one. */
  lemma ReleaseIsExplained(s: State, w: nat, stmt: Stmt, next: Pc)
    requires Enabled(s, Work(w, stmt, true, next)) && s.workers[w].Releasing? && s.workers[w].sid in s.db.sessions
    ensures var pc, s' := s.workers[w], Step(s, Work(w, stmt, true, next));
            var row, won := s.db.sessions[pc.sid], if pc.outcome.Success? then 1 else 0;
            pc.sid in s'.db.sessions &&
            var after := s'.db.sessions[pc.sid];
            && after.successCount == row.successCount + won && after.failCount == row.failCount + (1 - won)
            && after.totalTasks == row.totalTasks + 1
            && after.activeTasks == if row.activeTasks >= 1 then row.activeTasks - 1 else 0
  {}
}
