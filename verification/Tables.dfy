/** The SQLite rows the gateway works on, and what each of its UPDATE, INSERT and DELETE
    statements does to them. Times are whole seconds, as `datetime('now')` gives them. */
module Tables {
  import opened Wrappers

  type TaskId = string
  type SessionId = string

  datatype Status = Queued | Submitting | Polling | Downloading | Succeeded | Failed | Cancelled

  predicate Transient(st: Status) {
    st.Submitting? || st.Polling? || st.Downloading?
  }

  predicate Terminal(st: Status) {
    st.Succeeded? || st.Failed? || st.Cancelled?
  }

  /** What a client submits; a retry copies it. */
  datatype Payload = Payload(
    model: string, prompt: string, duration: int, ratio: string,
    resolution: Option<string>, body: Option<seq<bv8>>, contentType: Option<string>)

  datatype Task = Task(
    status: Status, payload: Payload, webhookUrl: Option<string>,
    createdAt: nat, updatedAt: nat, startedAt: Option<nat>, finishedAt: Option<nat>,
    sessionPoolId: Option<SessionId>, historyRecordId: Option<string>,
    videoUrl: Option<string>, errorMessage: Option<string>)

  datatype Session = Session(
    enabled: bool, healthy: bool, activeTasks: int, totalTasks: int, successCount: int, failCount: int,
    lastUsedAt: Option<nat>, lastError: Option<string>, cookieJar: Option<string>,
    sessionLabel: string, token: string, createdAt: nat)

  type TaskTable = map<TaskId, Task>
  type SessionTable = map<SessionId, Session>

  // Statements on tasks

  function NewTask(payload: Payload, webhookUrl: Option<string>, now: nat): Task {
    Task(Queued, payload, webhookUrl, now, now, None, None, None, None, None, None)
  }

  /** The row a claim takes: queued, and none queued is older. */
  predicate Claimable(ts: TaskTable, t: TaskId) {
    t in ts && ts[t].status.Queued? &&
    forall u :: u in ts && ts[u].status.Queued? ==> ts[t].createdAt <= ts[u].createdAt
  }

  function ClaimedRow(row: Task, now: nat): Task {
    row.(status := Submitting, startedAt := Some(now), updatedAt := now)
  }

  function WithStatus(row: Task, st: Status, now: nat): Task {
    row.(status := st, updatedAt := now)
  }

  function SucceededRow(row: Task, url: string, now: nat): Task {
    if row.status.Cancelled? then row
    else row.(status := Succeeded, videoUrl := Some(url), finishedAt := Some(now), updatedAt := now)
  }

  function FailedRow(row: Task, message: string, now: nat): Task {
    row.(status := Failed, errorMessage := Some(message), finishedAt := Some(now), updatedAt := now)
  }

  predicate Cancellable(st: Status) {
    st.Queued? || st.Submitting? || st.Polling?
  }

  function CancelledRow(row: Task, now: nat): Task {
    if Cancellable(row.status) then row.(status := Cancelled, finishedAt := Some(now), updatedAt := now) else row
  }

  const STUCK_SECS := 600

  /** Startup recovery on one task: back to the queue if transient and idle for over ten minutes. */
  function RecoveredRow(row: Task, now: nat): Task {
    if Transient(row.status) && row.updatedAt + STUCK_SECS < now then WithStatus(row, Queued, now) else row
  }

  // Statements on sessions

  const CAPACITY := 2

  function NewSession(sessionLabel: string, token: string, cookieJar: Option<string>, now: nat): Session {
    Session(true, true, 0, 0, 0, 0, None, None, cookieJar, sessionLabel, token, now)
  }

  predicate Available(row: Session) {
    row.enabled && row.healthy && row.activeTasks < CAPACITY
  }

  /** NULL sorts before every timestamp. */
  predicate UsedNoLater(a: Option<nat>, b: Option<nat>) {
    a.None? || (b.Some? && a.value <= b.value)
  }

  /** The row a pick takes: available, and no available row was used longer ago. */
  predicate Pickable(ss: SessionTable, id: SessionId) {
    id in ss && Available(ss[id]) &&
    forall other :: other in ss && Available(ss[other]) ==> UsedNoLater(ss[id].lastUsedAt, ss[other].lastUsedAt)
  }

  function PickedRow(row: Session, now: nat): Session {
    row.(activeTasks := row.activeTasks + 1, lastUsedAt := Some(now))
  }

  function ReleasedRow(row: Session, success: bool, error: Option<string>): Session {
    row.(activeTasks := if row.activeTasks - 1 > 0 then row.activeTasks - 1 else 0,
         totalTasks := row.totalTasks + 1,
         successCount := if success then row.successCount + 1 else row.successCount,
         failCount := if success then row.failCount else row.failCount + 1,
         lastError := if error.Some? then error else row.lastError)
  }

  function UnhealthyRow(row: Session): Session {
    row.(healthy := false)
  }

  function ToggledRow(row: Session, enabled: bool): Session {
    row.(enabled := enabled, healthy := if enabled then true else row.healthy)
  }

  // A queue or a pool that has a candidate has a best one

  lemma ClaimableExists(ts: TaskTable, t: TaskId)
    requires t in ts && ts[t].status.Queued?
    ensures exists u :: Claimable(ts, u)
  {
    var queued := set u | u in ts && ts[u].status.Queued?;
    assert t in queued;
    var age := t => if t in ts then ts[t].createdAt else 0;
    LeastExists(queued, age);
    var m :| m in queued && forall u :: u in queued ==> age(m) <= age(u);
    assert forall u :: u in queued ==> age(u) == ts[u].createdAt;
    assert Claimable(ts, m);
  }

  lemma PickableExists(ss: SessionTable, s: SessionId)
    requires s in ss && Available(ss[s])
    ensures exists u :: Pickable(ss, u)
  {
    var free := set u | u in ss && Available(ss[u]);
    assert s in free;
    var used := s => if s in ss && ss[s].lastUsedAt.Some? then ss[s].lastUsedAt.value else -1;
    LeastExists(free, used);
    var m :| m in free && forall u :: u in free ==> used(m) <= used(u);
    assert forall u :: u in free ==> (used(m) <= used(u) <==> UsedNoLater(ss[m].lastUsedAt, ss[u].lastUsedAt));
    assert Pickable(ss, m);
  }
}
