/** The gateway's shared-store protocol: N workers, HTTP requests and crash-restarts interleave
    one SQL statement at a time. Every statement a worker issues may fail, which the worker's
    code mostly ignores; a failed statement has no effect. */
module Gateway {
  import opened Wrappers
  import opened Tables

  /** A delivery row, reduced to the event it announces. Keyed by task, as `task_id` is UNIQUE. */
  type Outbox = map<TaskId, Status>

  datatype Db = Db(tasks: TaskTable, sessions: SessionTable, outbox: Outbox)

  /** Bookkeeping about one session id, kept past the removal of its row: picks ever made, picks
      forgotten by a restart, and releases whose statement failed since the last restart. */
  datatype Ledger = Ledger(picks: nat, lost: nat, leaks: nat)

  /** Startup runs `recover_on_startup` statement by statement before any worker or route exists. */
  datatype Phase = Booting(done: nat) | Up

  const RECOVERY_STEPS := 2

  /** What a poll of the upstream service can lead to. */
  datatype Reply = Pending | Images(urls: string) | Video(url: string) | Rejected

  datatype Stage =
    | Assign | ReadMeta | MarkSubmitting | Submit | MarkPolling | CheckCancel
    | Poll | Progress(reply: Reply) | Sleep | MarkDownloading(url: string) | FetchHq(url: string)

  datatype Outcome = Success | UserCancelled | Errored

  /** Where a worker is in `worker_loop`, with the task and session it holds. */
  datatype Pc =
    | Idle
    | Claimed(t: TaskId)
    | Requeueing(t: TaskId)
    | Running(t: TaskId, sid: SessionId, stage: Stage)
    | Finishing(t: TaskId, sid: SessionId, url: string)
    | Failing(t: TaskId, sid: SessionId)
    | MarkingFailed(t: TaskId, sid: SessionId)
    | Releasing(t: TaskId, sid: SessionId, outcome: Outcome)
    | MarkingUnhealthy(t: TaskId, sid: SessionId)
    | ReadingTask(t: TaskId)
    | Inserting(t: TaskId, event: Status)

  function TaskOf(pc: Pc): Option<TaskId> {
    if pc.Idle? then None else Some(pc.t)
  }

  /** A worker holds its session from the pick to the release. */
  function SessionOf(pc: Pc): Option<SessionId> {
    match pc
    case Running(_, sid, _) => Some(sid)
    case Finishing(_, sid, _) => Some(sid)
    case Failing(_, sid) => Some(sid)
    case MarkingFailed(_, sid) => Some(sid)
    case Releasing(_, sid, _) => Some(sid)
    case _ => None
  }

  /** The worker may still write the status of its task. */
  predicate Writing(pc: Pc) {
    pc.Claimed? || pc.Requeueing? || pc.Running? || pc.Finishing? || pc.Failing? || pc.MarkingFailed?
  }

  /** The statements, with the value they read or return where the control flow depends on it. */
  datatype Stmt =
    | Local
    | ClaimTask(t: TaskId) | ClaimNothing
    | RequeueTask(t: TaskId)
    | AssignSession(t: TaskId, sid: SessionId)
    | SetStatus(t: TaskId, st: Status)
    | SetHistory(t: TaskId, history: string)
    | MarkSucceeded(t: TaskId, url: string)
    | MarkFailed(t: TaskId, message: string)
    | PickSession(sid: SessionId) | PickNothing
    | ReleaseSession(sid: SessionId, success: bool, error: Option<string>)
    | MarkUnhealthy(sid: SessionId)
    | ReadStatus(t: TaskId, cancelled: bool)
    | ReadTask(t: TaskId, found: Option<Status>)
    | InsertDelivery(t: TaskId, event: Status)
    | Enqueue(t: TaskId, payload: Payload, webhookUrl: Option<string>)
    | CancelTask(t: TaskId)
    | AddSession(sid: SessionId, sessionLabel: string, token: string, cookieJar: Option<string>)
    | RemoveSession(sid: SessionId)
    | ToggleSession(sid: SessionId, enabled: bool)
    | SetCookieJar(sid: SessionId, jar: string)
    | ResetActive
    | RequeueStuck

  /** The control flow of `worker_loop`, `execute_task` and `enqueue_delivery`. */
  predicate Follows(pc: Pc, stmt: Stmt, ok: bool, next: Pc) {
    match pc
    case Idle =>
      if stmt.ClaimTask? && ok then next == Claimed(stmt.t)
      else (stmt.ClaimTask? || stmt.ClaimNothing?) && next == Idle
    case Claimed(t) =>
      if stmt.PickSession? && ok then next == Running(t, stmt.sid, Assign)
      else (stmt.PickSession? || stmt.PickNothing?) && next == Requeueing(t)
    case Requeueing(t) => stmt == RequeueTask(t) && next == Idle
    case Running(t, sid, stage) => StageFollows(t, sid, stage, stmt, next)
    case Finishing(t, sid, url) => stmt == MarkSucceeded(t, url) && next == Releasing(t, sid, Success)
    case Failing(t, sid) =>
      stmt.ReadStatus? && stmt.t == t &&
      next == if stmt.cancelled then Releasing(t, sid, UserCancelled) else MarkingFailed(t, sid)
    case MarkingFailed(t, sid) => stmt.MarkFailed? && stmt.t == t && next == Releasing(t, sid, Errored)
    case Releasing(t, sid, outcome) =>
      stmt.ReleaseSession? && stmt.sid == sid && (stmt.success <==> outcome.Success?) &&
      (match outcome
       case Success => next == ReadingTask(t)
       case UserCancelled => next == Idle
       case Errored => next == ReadingTask(t) || next == MarkingUnhealthy(t, sid))
    case MarkingUnhealthy(t, sid) => stmt == MarkUnhealthy(sid) && next == ReadingTask(t)
    case ReadingTask(t) =>
      stmt.ReadTask? && stmt.t == t && next == if stmt.found.Some? then Inserting(t, stmt.found.value) else Idle
    case Inserting(t, event) => stmt == InsertDelivery(t, event) && next == Idle
  }

  predicate StageFollows(t: TaskId, sid: SessionId, stage: Stage, stmt: Stmt, next: Pc) {
    var failing := next == Failing(t, sid);
    match stage
    case Assign => stmt == AssignSession(t, sid) && next == Running(t, sid, ReadMeta)
    case ReadMeta => stmt == Local && (failing || next == Running(t, sid, MarkSubmitting))
    case MarkSubmitting => stmt == SetStatus(t, Submitting) && next == Running(t, sid, Submit)
    case Submit => stmt == Local && (failing || next == Running(t, sid, MarkPolling))
    case MarkPolling => stmt.SetHistory? && stmt.t == t && next == Running(t, sid, CheckCancel)
    case CheckCancel =>
      stmt.ReadStatus? && stmt.t == t && (failing || (!stmt.cancelled && next == Running(t, sid, Poll)))
    case Poll =>
      stmt == Local && (failing || (next.Running? && next.stage.Progress? && next == Running(t, sid, next.stage)))
    case Progress(reply) =>
      stmt == SetStatus(t, Polling) &&
      (match reply
       case Pending => next == Running(t, sid, Sleep)
       case Images(urls) => next == Finishing(t, sid, urls)
       case Video(url) => next == Running(t, sid, MarkDownloading(url))
       case Rejected => failing)
    case Sleep => stmt == Local && next == Running(t, sid, CheckCancel)
    case MarkDownloading(url) => stmt == SetStatus(t, Downloading) && next == Running(t, sid, FetchHq(url))
    case FetchHq(url) => stmt == Local && next.Finishing? && next == Finishing(t, sid, next.url)
  }

  /** The event `enqueue_delivery` would announce for a task, if any. */
  function EventOf(db: Db, t: TaskId): Option<Status> {
    if t in db.tasks && db.tasks[t].webhookUrl.Some? && Terminal(db.tasks[t].status)
    then Some(db.tasks[t].status) else None
  }

  /** What a statement that worked may return, and what one that failed lets the code conclude. */
  predicate Returns(db: Db, stmt: Stmt, ok: bool) {
    match stmt
    case ClaimTask(t) => ok ==> Claimable(db.tasks, t)
    case ClaimNothing => ok ==> forall t :: t in db.tasks ==> !db.tasks[t].status.Queued?
    case PickSession(sid) => ok ==> Pickable(db.sessions, sid)
    case PickNothing => ok ==> forall sid :: sid in db.sessions ==> !Available(db.sessions[sid])
    case ReadStatus(t, cancelled) => cancelled <==> (ok && t in db.tasks && db.tasks[t].status.Cancelled?)
    case ReadTask(t, found) => found == if ok then EventOf(db, t) else None
    case _ => true
  }

  /** The task whose row a statement updates. */
  function TaskTarget(stmt: Stmt): Option<TaskId> {
    match stmt
    case ClaimTask(t) => Some(t)
    case RequeueTask(t) => Some(t)
    case AssignSession(t, _) => Some(t)
    case SetStatus(t, _) => Some(t)
    case SetHistory(t, _) => Some(t)
    case MarkSucceeded(t, _) => Some(t)
    case MarkFailed(t, _) => Some(t)
    case CancelTask(t) => Some(t)
    case _ => None
  }

  function TaskRow(stmt: Stmt, row: Task, now: nat): Task {
    match stmt
    case ClaimTask(_) => ClaimedRow(row, now)
    case RequeueTask(_) => WithStatus(row, Queued, now)
    case AssignSession(_, sid) => row.(sessionPoolId := Some(sid), updatedAt := now)
    case SetStatus(_, st) => WithStatus(row, st, now)
    case SetHistory(_, h) => WithStatus(row, Polling, now).(historyRecordId := Some(h))
    case MarkSucceeded(_, url) => SucceededRow(row, url, now)
    case MarkFailed(_, message) => FailedRow(row, message, now)
    case CancelTask(_) => CancelledRow(row, now)
    case _ => row
  }

  function TasksAfter(ts: TaskTable, stmt: Stmt, now: nat): TaskTable {
    match stmt
    case Enqueue(t, payload, url) => ts[t := NewTask(payload, url, now)]
    case RequeueStuck => map t | t in ts :: RecoveredRow(ts[t], now)
    case _ =>
      var target := TaskTarget(stmt);
      if target.Some? && target.value in ts then ts[target.value := TaskRow(stmt, ts[target.value], now)] else ts
  }

  function SessionTarget(stmt: Stmt): Option<SessionId> {
    match stmt
    case PickSession(sid) => Some(sid)
    case ReleaseSession(sid, _, _) => Some(sid)
    case MarkUnhealthy(sid) => Some(sid)
    case ToggleSession(sid, _) => Some(sid)
    case SetCookieJar(sid, _) => Some(sid)
    case _ => None
  }

  function SessionRow(stmt: Stmt, row: Session, now: nat): Session {
    match stmt
    case PickSession(_) => PickedRow(row, now)
    case ReleaseSession(_, success, error) => ReleasedRow(row, success, error)
    case MarkUnhealthy(_) => UnhealthyRow(row)
    case ToggleSession(_, enabled) => ToggledRow(row, enabled)
    case SetCookieJar(_, jar) => row.(cookieJar := Some(jar))
    case _ => row
  }

  function SessionsAfter(ss: SessionTable, stmt: Stmt, now: nat): SessionTable {
    match stmt
    case AddSession(sid, l, token, jar) => ss[sid := NewSession(l, token, jar, now)]
    case RemoveSession(sid) => ss - {sid}
    case ResetActive => map sid | sid in ss :: ss[sid].(activeTasks := 0)
    case _ =>
      var target := SessionTarget(stmt);
      if target.Some? && target.value in ss then ss[target.value := SessionRow(stmt, ss[target.value], now)] else ss
  }

  /** INSERT OR IGNORE against the UNIQUE task id. */
  function OutboxAfter(ob: Outbox, stmt: Stmt): Outbox {
    if stmt.InsertDelivery? && stmt.t !in ob then ob[stmt.t := stmt.event] else ob
  }

  /** The effect of one statement. */
  function Exec(db: Db, stmt: Stmt, now: nat): Db {
    Db(TasksAfter(db.tasks, stmt, now), SessionsAfter(db.sessions, stmt, now), OutboxAfter(db.outbox, stmt))
  }

  datatype State = State(
    now: nat, phase: Phase, db: Db, workers: seq<Pc>, ledger: map<SessionId, Ledger>)

  function LedgerOf(ledger: map<SessionId, Ledger>, sid: SessionId): Ledger {
    if sid in ledger then ledger[sid] else Ledger(0, 0, 0)
  }

  function LedgerAfter(s: State, stmt: Stmt, ok: bool): map<SessionId, Ledger> {
    match stmt
    case PickSession(sid) =>
      var l := LedgerOf(s.ledger, sid);
      if ok then s.ledger[sid := l.(picks := l.picks + 1)] else s.ledger
    case ReleaseSession(sid, _, _) =>
      var l := LedgerOf(s.ledger, sid);
      if ok then s.ledger else s.ledger[sid := l.(leaks := l.leaks + 1)]
    case AddSession(sid, _, _, _) => s.ledger[sid := Ledger(0, 0, 0)]
    case ResetActive =>
      map sid | sid in s.ledger ::
        var active := if sid in s.db.sessions && s.db.sessions[sid].activeTasks >= 0
            then s.db.sessions[sid].activeTasks else 0;
        Ledger(s.ledger[sid].picks, s.ledger[sid].lost + active, 0)
    case _ => s.ledger
  }

  datatype Action =
    | Tick
    | Work(w: nat, stmt: Stmt, ok: bool, next: Pc)
    | Request(stmt: Stmt)
    | Crash
    | Recover

  /** The statements HTTP handlers issue. Ids are fresh UUIDs, never used before. */
  predicate IsRequest(s: State, stmt: Stmt) {
    match stmt
    case Enqueue(t, _, _) => t !in s.db.tasks && t !in s.db.outbox
    case CancelTask(_) => true
    case AddSession(sid, _, _, _) => sid !in s.ledger && sid !in s.db.sessions
    case RemoveSession(_) => true
    case ToggleSession(_, _) => true
    case SetCookieJar(_, _) => true
    case _ => false
  }

  function RecoveryStmt(done: nat): Stmt {
    if done == 0 then ResetActive else RequeueStuck
  }

  predicate Enabled(s: State, a: Action) {
    match a
    case Tick => true
    case Work(w, stmt, ok, next) =>
      s.phase.Up? && w < |s.workers| && Follows(s.workers[w], stmt, ok, next) && Returns(s.db, stmt, ok)
    case Request(stmt) => s.phase.Up? && IsRequest(s, stmt)
    case Crash => true
    case Recover => s.phase.Booting?
  }

  function Step(s: State, a: Action): State
    requires Enabled(s, a)
  {
    match a
    case Tick => s.(now := s.now + 1)
    case Work(w, stmt, ok, next) =>
      s.(db := if ok then Exec(s.db, stmt, s.now) else s.db, workers := s.workers[w := next],
         ledger := LedgerAfter(s, stmt, ok))
    case Request(stmt) => s.(db := Exec(s.db, stmt, s.now), ledger := LedgerAfter(s, stmt, true))
    case Crash =>
      s.(phase := Booting(0), workers := seq(|s.workers|, _ => Idle))
    case Recover =>
      if s.phase.done < RECOVERY_STEPS then
        s.(phase := Booting(s.phase.done + 1), db := Exec(s.db, RecoveryStmt(s.phase.done), s.now),
           ledger := LedgerAfter(s, RecoveryStmt(s.phase.done), true))
      else s.(phase := Up)
  }

  /** First start of a gateway with `n` workers on an empty database. */
  function Start(n: nat): State {
    State(0, Booting(0), Db(map[], map[], map[]), seq(n, _ => Idle), map[])
  }

  /** A run: every state follows from the one before it by an enabled action. */
  predicate IsRun(states: seq<State>, actions: seq<Action>) {
    |states| == |actions| + 1 &&
    forall i :: 0 <= i < |actions| ==> Enabled(states[i], actions[i]) && states[i + 1] == Step(states[i], actions[i])
  }
}
