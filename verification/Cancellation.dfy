/** What becomes of a cancel while a worker holds the task: exactly where it sticks, and runs that lose it. */
module Cancellation {
  import opened Wrappers
  import opened Tables
  import opened Gateway
  import opened Ownership
  import opened Reachability

  // A cancel during the sleep between polls

  /** How many more moves the worker makes before it lets go of a task cancelled while it slept. */
  function MovesLeft(pc: Pc): nat {
    match pc
    case Running(_, _, stage) => if stage.Sleep? then 3 else 2
    case Failing(_, _) => 1
    case _ => 0
  }

  /** Worker `w` holds a cancelled task and has not yet got past the check that notices it. */
  ghost predicate Doomed(s: State, w: nat, t: TaskId, sid: SessionId) {
    && w < |s.workers|
    && t in s.db.tasks && s.db.tasks[t].status.Cancelled? && t !in s.db.outbox
    && (s.workers[w] == Running(t, sid, Sleep) || s.workers[w] == Running(t, sid, CheckCancel)
        || s.workers[w] == Failing(t, sid) || s.workers[w] == Releasing(t, sid, UserCancelled))
  }

  /** A task with a final status that nobody holds and nobody announced. */
  ghost predicate Silent(s: State, t: TaskId) {
    t in s.db.tasks && Terminal(s.db.tasks[t].status) && t !in s.db.outbox && !HeldBySomeone(s, t)
  }

  lemma WorkStaysSilent(s: State, w: nat, stmt: Stmt, ok: bool, next: Pc, t: TaskId)
    requires Inv(s) && Enabled(s, Work(w, stmt, ok, next)) && Silent(s, t)
    ensures var s' := Step(s, Work(w, stmt, ok, next));
            t in s'.db.tasks && t !in s'.db.outbox && !HeldBySomeone(s', t)
  {
    hide LocalOk, RowOk, Exec, Follows;
    var s' := Step(s, Work(w, stmt, ok, next));
    assert TaskOf(s.workers[w]) != Some(t);
    WorkFrame(s, w, stmt, ok, next);
    if s.workers[w].Idle? {
      ClaimWork(s, w, stmt, ok, next);
    } else {
      HeldWork(s, w, stmt, ok, next);
    }
    assert TaskOf(next) != Some(t);
    assert forall v :: 0 <= v < |s'.workers| && v != w ==> s'.workers[v] == s.workers[v];
  }

  /** Nobody will ever announce such a task, nor change its row. */
  lemma SilentForever(s: State, a: Action, t: TaskId)
    requires Inv(s) && Enabled(s, a) && Silent(s, t)
    ensures Silent(Step(s, a), t) && Step(s, a).db.tasks[t] == s.db.tasks[t]
  {
    assert !BeingWritten(s, t);
    TerminalAbsorbs(s, a, t);
    var s' := Step(s, a);
    match a
    case Work(w, stmt, ok, next) =>
      WorkStaysSilent(s, w, stmt, ok, next, t);
      hide Step, Enabled, HeldBySomeone, BeingWritten, Inv;
    case Request(stmt) =>
      assert s'.workers == s.workers;
    case Recover =>
      assert s'.workers == s.workers;
    case Crash =>
    case Tick =>
  }

  /** The cancelled worker's own move, when the status read works: one move nearer to letting go,
      and the last one releases the session as a failure. */
  lemma DoomedWork(s: State, w: nat, stmt: Stmt, ok: bool, next: Pc, t: TaskId, sid: SessionId)
    requires Inv(s) && Enabled(s, Work(w, stmt, ok, next)) && Doomed(s, w, t, sid)
    requires stmt.ReadStatus? ==> ok
    ensures var s' := Step(s, Work(w, stmt, ok, next));
            && s'.db.tasks[t] == s.db.tasks[t]
            && (if MovesLeft(s.workers[w]) > 0
                then Doomed(s', w, t, sid) && MovesLeft(next) == MovesLeft(s.workers[w]) - 1
                else Silent(s', t) && stmt.ReleaseSession? && stmt.sid == sid && !stmt.success)
  {
    var s' := Step(s, Work(w, stmt, ok, next));
    if MovesLeft(s.workers[w]) == 0 {
      assert next == Idle;
      assert forall v :: 0 <= v < |s'.workers| && v != w ==> s'.workers[v] == s.workers[v];
    }
  }

  lemma DoomedSpared(s: State, w: nat, stmt: Stmt, ok: bool, next: Pc, v: nat, t: TaskId, sid: SessionId)
    requires Inv(s) && Enabled(s, Work(w, stmt, ok, next)) && Doomed(s, v, t, sid) && v != w
    ensures Doomed(Step(s, Work(w, stmt, ok, next)), v, t, sid)
  {
    WorkSpares(s, w, stmt, ok, next, v);
    WorkFrame(s, w, stmt, ok, next);
  }

  ghost predicate ReadsWork(a: Action, w: nat, t: TaskId) {
    a.Work? && a.w == w && a.stmt.ReadStatus? && a.stmt.t == t ==> a.ok
  }

  /** Whatever else the gateway does, crash and restart included, the cancelled task stays
      cancelled and unannounced. */
  lemma DoomedStep(s: State, a: Action, w: nat, t: TaskId, sid: SessionId)
    requires Inv(s) && Enabled(s, a) && Doomed(s, w, t, sid) && ReadsWork(a, w, t)
    ensures Doomed(Step(s, a), w, t, sid) || Silent(Step(s, a), t)
    ensures Step(s, a).db.tasks[t].status.Cancelled?
  {
    match a
    case Work(v, stmt, ok, next) =>
      if v == w {
        DoomedWork(s, w, stmt, ok, next, t, sid);
      } else {
        DoomedSpared(s, v, stmt, ok, next, w, t, sid);
      }
    case _ =>
  }

  /** A cancel that lands while the worker sleeps between polls is final: in every later state of
      the run the task is cancelled and no delivery row exists for it. */
  lemma {:induction false} CancelDuringSleepSticks(
      n: nat, states: seq<State>, actions: seq<Action>, i: nat, j: nat, w: nat, t: TaskId, sid: SessionId)
    requires IsRun(states, actions) && states[0] == Start(n) && i <= j < |states|
    requires w < |states[i].workers| && states[i].workers[w] == Running(t, sid, Sleep)
    requires t in states[i].db.tasks && states[i].db.tasks[t].status.Cancelled?
    requires forall k :: i <= k < j ==> ReadsWork(actions[k], w, t)
    ensures Doomed(states[j], w, t, sid) || Silent(states[j], t)
    ensures t in states[j].db.tasks && states[j].db.tasks[t].status.Cancelled? && t !in states[j].db.outbox
    decreases j - i
  {
    RunIsSafe(n, states, actions);
    if i < j {
      var k := j - 1;
      CancelDuringSleepSticks(n, states, actions, i, k, w, t, sid);
      if Doomed(states[k], w, t, sid) {
        DoomedStep(states[k], actions[k], w, t, sid);
      } else {
        SilentForever(states[k], actions[k], t);
      }
    } else {
      assert LocalOk(states[i].workers[w], states[i].db.tasks[t], t in states[i].db.outbox);
    }
  }

  // Exactly when a cancel sticks

  /** From here the worker lets go of a cancelled task without writing its status, if its reads work. */
  predicate SafePc(pc: Pc) {
    !Writing(pc) || pc.Finishing? || pc.Failing? ||
    (pc.Running? && (pc.stage.Sleep? || pc.stage.CheckCancel? || pc.stage.FetchHq?))
  }

  ghost predicate AllReadsWork(actions: seq<Action>, w: nat, t: TaskId) {
    forall i :: 0 <= i < |actions| ==> ReadsWork(actions[i], w, t)
  }

  ghost predicate IsCancelled(s: State, t: TaskId) {
    t in s.db.tasks && s.db.tasks[t].status.Cancelled?
  }

  /** Whatever happens next, as long as the status reads of worker `w` work, the task stays cancelled. */
  ghost predicate Sticks(s: State, w: nat, t: TaskId) {
    forall actions, s' :: Leads(s, actions, s') && AllReadsWork(actions, w, t) ==> IsCancelled(s', t)
  }

  ghost predicate Safe(s: State, w: nat, t: TaskId) {
    && IsCancelled(s, t)
    && (BeingWritten(s, t) ==> w < |s.workers| && TaskOf(s.workers[w]) == Some(t) && SafePc(s.workers[w]))
  }

  lemma SafeStage(pc: Pc, stmt: Stmt, ok: bool, next: Pc, row: Task, now: nat)
    requires pc.Running? && SafePc(pc) && Follows(pc, stmt, ok, next) && row.status.Cancelled?
    requires stmt.ReadStatus? ==> stmt.cancelled
    ensures RowAfter(stmt, ok, row, now).status.Cancelled?
    ensures TaskOf(next) == Some(pc.t) && SafePc(next)
  {}

  /** A move of the holder from a safe place keeps the row cancelled and leads to a safe place. */
  lemma SafeMove(pc: Pc, stmt: Stmt, ok: bool, next: Pc, row: Task, now: nat)
    requires Writing(pc) && SafePc(pc) && Follows(pc, stmt, ok, next) && row.status.Cancelled?
    requires stmt.ReadStatus? ==> stmt.cancelled
    ensures RowAfter(stmt, ok, row, now).status.Cancelled?
    ensures TaskOf(next) == Some(pc.t) && SafePc(next)
  {
    if pc.Running? {
      SafeStage(pc, stmt, ok, next, row, now);
    }
  }

  lemma SafeWork(s: State, w: nat, stmt: Stmt, ok: bool, next: Pc, t: TaskId)
    requires Inv(s) && Enabled(s, Work(w, stmt, ok, next)) && Safe(s, w, t) && BeingWritten(s, t)
    requires stmt.ReadStatus? && stmt.t == t ==> ok
    ensures Safe(Step(s, Work(w, stmt, ok, next)), w, t)
  {
    var pc := s.workers[w];
    assert Writing(pc) && pc.t == t;
    HeldWork(s, w, stmt, ok, next);
    ReadOwn(pc, stmt, ok, next);
    hide Exec, RowAfter, LocalOk, RowOk, SafePc;
    SafeMove(pc, stmt, ok, next, s.db.tasks[t], s.now);
    assert Step(s, Work(w, stmt, ok, next)).workers[w] == next;
  }

  lemma ReadOwn(pc: Pc, stmt: Stmt, ok: bool, next: Pc)
    requires !pc.Idle? && Follows(pc, stmt, ok, next)
    ensures stmt.ReadStatus? ==> stmt.t == pc.t
  {}

  lemma SafeStep(s: State, a: Action, w: nat, t: TaskId)
    requires Inv(s) && Enabled(s, a) && Safe(s, w, t) && ReadsWork(a, w, t)
    ensures Safe(Step(s, a), w, t)
  {
    if !BeingWritten(s, t) {
      TerminalAbsorbs(s, a, t);
      return;
    }
    var s' := Step(s, a);
    match a
    case Work(v, stmt, ok, next) =>
      if v == w {
        SafeWork(s, w, stmt, ok, next, t);
      } else {
        WorkSpares(s, v, stmt, ok, next, w);
        WorkFrame(s, v, stmt, ok, next);
        assert s'.workers[w] == s.workers[w];
      }
    case Request(stmt) =>
      assert s'.workers == s.workers;
    case _ =>
  }

  lemma {:induction false} SafeStaysCancelled(s: State, actions: seq<Action>, s': State, w: nat, t: TaskId)
    requires Inv(s) && Leads(s, actions, s') && Safe(s, w, t) && AllReadsWork(actions, w, t)
    ensures IsCancelled(s', t)
    decreases |actions|
  {
    hide Enabled, Step, Inv, BeingWritten, SafePc;
    if actions != [] {
      assert ReadsWork(actions[0], w, t);
      StepKeepsInv(s, actions[0]);
      SafeStep(s, actions[0], w, t);
      assert forall i :: 0 <= i < |actions[1..]| ==> actions[1..][i] == actions[i + 1];
      SafeStaysCancelled(Step(s, actions[0]), actions[1..], s', w, t);
    }
  }

  /** Moves until the status is overwritten. */
  function Distance(pc: Pc): nat {
    match pc
    case Claimed(_) => 2
    case Running(_, _, stage) =>
      if stage.Assign? then 3 else if stage.ReadMeta? || stage.Submit? || stage.Poll? then 2 else 1
    case _ => 1
  }

  /** The next move on the way to overwriting a cancelled row. */
  function Overwriting(pc: Pc): (Stmt, Pc)
    requires !SafePc(pc)
  {
    match pc
    case Claimed(t) => (PickNothing, Requeueing(t))
    case Requeueing(t) => (RequeueTask(t), Idle)
    case MarkingFailed(t, sid) => (MarkFailed(t, ""), Releasing(t, sid, Errored))
    case Running(t, sid, stage) =>
      (match stage
       case Assign => (AssignSession(t, sid), Running(t, sid, ReadMeta))
       case ReadMeta => (Local, Running(t, sid, MarkSubmitting))
       case MarkSubmitting => (SetStatus(t, Submitting), Running(t, sid, Submit))
       case Submit => (Local, Running(t, sid, MarkPolling))
       case MarkPolling => (SetHistory(t, ""), Running(t, sid, CheckCancel))
       case Poll => (Local, Running(t, sid, Progress(Pending)))
       case MarkDownloading(url) => (SetStatus(t, Downloading), Running(t, sid, FetchHq(url)))
       case Progress(reply) => (SetStatus(t, Polling), AfterProgress(t, sid, reply)))
  }

  function AfterProgress(t: TaskId, sid: SessionId, reply: Reply): Pc {
    match reply
    case Pending => Running(t, sid, Sleep)
    case Images(urls) => Finishing(t, sid, urls)
    case Video(url) => Running(t, sid, MarkDownloading(url))
    case Rejected => Failing(t, sid)
  }

  /** A failed pick is answered like an empty pool; the other moves work. */
  function OverwriteAction(w: nat, pc: Pc): Action
    requires !SafePc(pc)
  {
    Work(w, Overwriting(pc).0, !pc.Claimed?, Overwriting(pc).1)
  }

  lemma OverwritingRow(pc: Pc, row: Task, now: nat)
    requires !SafePc(pc) && row.status.Cancelled?
    ensures var (stmt, next) := Overwriting(pc);
            && Follows(pc, stmt, !pc.Claimed?, next) && !stmt.ReadStatus? && !stmt.ReadTask? && !stmt.PickSession?
            && !stmt.ClaimTask? && !stmt.ClaimNothing?
            && (TaskTarget(stmt).Some? ==> TaskTarget(stmt).value == pc.t)
            && !stmt.Enqueue? && !stmt.RequeueStuck?
            && if Distance(pc) == 1
               then !pc.Claimed? && TaskTarget(stmt).Some? && !TaskRow(stmt, row, now).status.Cancelled?
               else !next.Idle? && next.t == pc.t && !SafePc(next) && Distance(next) == Distance(pc) - 1
                    && RowAfter(stmt, !pc.Claimed?, row, now).status.Cancelled?
  {}

  lemma OverwritingWork(s: State, w: nat)
    requires s.phase.Up? && w < |s.workers| && !SafePc(s.workers[w]) && IsCancelled(s, s.workers[w].t)
    ensures var pc := s.workers[w];
            var a := OverwriteAction(w, pc);
            Enabled(s, a) && ReadsWork(a, w, pc.t) &&
            var s' := Step(s, a);
            s'.phase.Up? && |s'.workers| == |s.workers| && pc.t in s'.db.tasks &&
            if Distance(pc) == 1 then !IsCancelled(s', pc.t)
            else IsCancelled(s', pc.t) && TaskOf(s'.workers[w]) == Some(pc.t) && !SafePc(s'.workers[w])
                 && Distance(s'.workers[w]) == Distance(pc) - 1
  {
    OverwritingRow(s.workers[w], s.db.tasks[s.workers[w].t], s.now);
    hide Follows, SafePc, Overwriting, Distance, TaskRow;
  }

  /** From an unsafe place, the holder's own next moves overwrite the cancel. */
  lemma {:induction false} CancelIsOverwritten(s: State, w: nat, t: TaskId) returns (actions: seq<Action>, s': State)
    requires s.phase.Up? && w < |s.workers| && TaskOf(s.workers[w]) == Some(t) && IsCancelled(s, t)
    requires !SafePc(s.workers[w])
    ensures Leads(s, actions, s') && AllReadsWork(actions, w, t) && t in s'.db.tasks && !IsCancelled(s', t)
    ensures |actions| <= Distance(s.workers[w]) <= 3 && forall a :: a in actions ==> a.Work? && a.w == w
    decreases Distance(s.workers[w])
  {
    var a := OverwriteAction(w, s.workers[w]);
    OverwritingWork(s, w);
    assert 1 <= Distance(s.workers[w]) <= 3;
    hide Enabled, Step, SafePc, Distance, OverwriteAction;
    s' := Step(s, a);
    actions := [a];
    LeadsOnce(s, a);
    if IsCancelled(s', t) {
      var rest;
      rest, s' := CancelIsOverwritten(Step(s, a), w, t);
      actions := [a] + rest;
      LeadsOn(s, [a], Step(s, a), rest, s');
    }
  }

  /** In every state a fresh gateway can reach: a cancel of a task in the hands of worker `w` is final, whatever
      happens next, exactly when the worker is at a safe place: past its last status write, about to write a
      success or to find out about the cancel, asleep, or fetching the final URL. */
  lemma CancelSticksExactly(n: nat, s: State, w: nat, t: TaskId)
    requires Reachable(n, s) && s.phase.Up? && w < |s.workers| && TaskOf(s.workers[w]) == Some(t) && IsCancelled(s, t)
    ensures Sticks(s, w, t) <==> SafePc(s.workers[w])
  {
    ReachableIsSafe(n, s);
    if SafePc(s.workers[w]) {
      assert Safe(s, w, t);
      forall actions, s' | Leads(s, actions, s') && AllReadsWork(actions, w, t)
        ensures IsCancelled(s', t)
      {
        SafeStaysCancelled(s, actions, s', w, t);
      }
    } else {
      var actions, s' := CancelIsOverwritten(s, w, t);
      assert Leads(s, actions, s');
    }
  }

  // Cancels lost on runs of a fresh gateway

  /** The claimed task is cancelled; the pool is empty, and the worker puts the task back. */
  function CancelledClaim(): State {
    ClaimedState(None).(db := Db(map[T := CancelledRow(ClaimedRow(NewTask(PAYLOAD, None, 0), 0), 0)], map[], map[]))
  }

  const REQUEUING := [Work(0, PickNothing, true, Requeueing(T)), Work(0, RequeueTask(T), true, Idle)]

  lemma ClaimIsCancelled()
    ensures var a := Request(CancelTask(T));
            Enabled(ClaimedState(None), a) && Step(ClaimedState(None), a) == CancelledClaim()
  {
    var s := ClaimedState(None);
    assert Step(s, Request(CancelTask(T))).db.tasks == CancelledClaim().db.tasks;
  }

  lemma RequeuingOverwrites() returns (s': State)
    ensures Leads(CancelledClaim(), REQUEUING, s') && T in s'.db.tasks && s'.db.tasks[T].status.Queued?
  {
    var s := CancelledClaim();
    assert Enabled(s, REQUEUING[0]);
    var s1 := Step(s, REQUEUING[0]);
    assert s1.workers == [Requeueing(T)] && s1.db == s.db && s1.phase.Up?;
    assert Enabled(s1, REQUEUING[1]);
    s' := Step(s1, REQUEUING[1]);
    hide Leads, Follows, Returns, CancelledClaim;
    LeadsOnce(s, REQUEUING[0]);
    LeadsNext(s, [REQUEUING[0]], s1, REQUEUING[1]);
    assert REQUEUING == [REQUEUING[0]] + [REQUEUING[1]];
  }

  /** Without any failure: a cancel that lands right after the claim, with no session to be had, puts the
      task back in the queue. */
  lemma CancelAfterClaimIsLost() returns (actions: seq<Action>, s: State, s': State)
    ensures Leads(Start(1), actions, s) && Leads(s, REQUEUING, s')
    ensures s.workers == [Claimed(T)] && IsCancelled(s, T)
    ensures T in s'.db.tasks && s'.db.tasks[T].status.Queued?
  {
    s := CancelledClaim();
    assert IsCancelled(s, T);
    hide Leads, Enabled, Step;
    actions := ClaimedRun(None);
    ClaimIsCancelled();
    LeadsNext(Start(1), actions, ClaimedState(None), Request(CancelTask(T)));
    actions := actions + [Request(CancelTask(T))];
    s' := RequeuingOverwrites();
  }

  /** The way of a worker from its assignment to the sleep after a first poll. */
  lemma AsleepRun() returns (actions: seq<Action>, row: Task, session: Session)
    ensures Leads(Start(1), actions, Scene(row, session, Running(T, SID, Sleep))) && row.status.Polling?
  {
    actions, row, session := AssignedRun(None);
    var stmts := [AssignSession(T, SID), Local, SetStatus(T, Submitting), Local, SetHistory(T, "h"),
                  ReadStatus(T, false), Local, SetStatus(T, Polling)];
    var pcs := [Running(T, SID, Assign), Running(T, SID, ReadMeta), Running(T, SID, MarkSubmitting),
                Running(T, SID, Submit), Running(T, SID, MarkPolling), Running(T, SID, CheckCancel),
                Running(T, SID, Poll), Running(T, SID, Progress(Pending)), Running(T, SID, Sleep)];
    hide Leads, Scene;
    for i := 0 to 8
      invariant Leads(Start(1), actions, Scene(row, session, pcs[i]))
      invariant !row.status.Cancelled? && (i == 8 ==> row.status.Polling?)
    {
      SceneNext(Start(1), actions, row, session, pcs[i], stmts[i], true, pcs[i + 1]);
      actions := actions + [Work(0, stmts[i], true, pcs[i + 1])];
      row := TaskRow(stmts[i], row, 0);
    }
  }

  /** A cancel lands on the sleeping worker's task. */
  lemma CancelledAsleepRun() returns (actions: seq<Action>, row: Task, session: Session)
    ensures Leads(Start(1), actions, Scene(row, session, Running(T, SID, Sleep))) && row.status.Cancelled?
  {
    actions, row, session := AsleepRun();
    var s := Scene(row, session, Running(T, SID, Sleep));
    var cancel := Request(CancelTask(T));
    row := CancelledRow(row, 0);
    var s' := Scene(row, session, Running(T, SID, Sleep));
    assert Enabled(s, cancel);
    assert Step(s, cancel).db.tasks == s'.db.tasks;
    assert Step(s, cancel) == s';
    hide Leads, Scene;
    LeadsNext(Start(1), actions, s, cancel);
    actions := actions + [cancel];
  }

  /** The worker wakes, its status read fails, it polls and writes its progress. */
  const WAKING := [
    Work(0, Local, true, Running(T, SID, CheckCancel)),
    Work(0, ReadStatus(T, false), false, Running(T, SID, Poll)),
    Work(0, Local, true, Running(T, SID, Progress(Pending))),
    Work(0, SetStatus(T, Polling), true, Running(T, SID, Sleep))]

  lemma WakesAndMisreads(row: Task, session: Session)
    ensures Leads(Scene(row, session, Running(T, SID, Sleep)), WAKING[..2], Scene(row, session, Running(T, SID, Poll)))
  {
    hide Scene, Leads, Enabled, Step;
    SceneMove(row, session, Running(T, SID, Sleep), Local, true, Running(T, SID, CheckCancel));
    SceneMove(row, session, Running(T, SID, CheckCancel), ReadStatus(T, false), false, Running(T, SID, Poll));
    hide Follows, TaskTarget, TaskOnly;
    var s := Scene(row, session, Running(T, SID, Sleep));
    LeadsOnce(s, WAKING[0]);
    LeadsNext(s, [WAKING[0]], Scene(row, session, Running(T, SID, CheckCancel)), WAKING[1]);
    assert WAKING[..2] == [WAKING[0]] + [WAKING[1]];
  }

  lemma PollsAndWrites(row: Task, session: Session)
    ensures Leads(Scene(row, session, Running(T, SID, Poll)), WAKING[2..],
                  Scene(WithStatus(row, Polling, 0), session, Running(T, SID, Sleep)))
  {
    hide Scene, Leads, Enabled, Step;
    SceneMove(row, session, Running(T, SID, Poll), Local, true, Running(T, SID, Progress(Pending)));
    SceneMove(row, session, Running(T, SID, Progress(Pending)), SetStatus(T, Polling), true, Running(T, SID, Sleep));
    hide Follows, TaskTarget, TaskOnly;
    var s := Scene(row, session, Running(T, SID, Poll));
    LeadsOnce(s, WAKING[2]);
    LeadsNext(s, [WAKING[2]], Scene(row, session, Running(T, SID, Progress(Pending))), WAKING[3]);
    assert WAKING[2..] == [WAKING[2]] + [WAKING[3]];
  }

  lemma WakingOverwrites(row: Task, session: Session)
    ensures Leads(Scene(row, session, Running(T, SID, Sleep)), WAKING,
                  Scene(WithStatus(row, Polling, 0), session, Running(T, SID, Sleep)))
  {
    hide Scene, Leads;
    WakesAndMisreads(row, session);
    PollsAndWrites(row, session);
    LeadsOn(Scene(row, session, Running(T, SID, Sleep)), WAKING[..2], Scene(row, session, Running(T, SID, Poll)),
            WAKING[2..], Scene(WithStatus(row, Polling, 0), session, Running(T, SID, Sleep)));
    assert WAKING[..2] + WAKING[2..] == WAKING;
  }

  /** A status read that fails counts as not cancelled: a cancel that landed during the sleep is lost with
      the next progress write. */
  lemma FailedReadLosesCancel() returns (actions: seq<Action>, s: State, s': State)
    ensures Leads(Start(1), actions, s) && Leads(s, WAKING, s')
    ensures s.workers == [Running(T, SID, Sleep)] && IsCancelled(s, T)
    ensures T in s'.db.tasks && s'.db.tasks[T].status.Polling?
  {
    var row, session;
    actions, row, session := CancelledAsleepRun();
    s := Scene(row, session, Running(T, SID, Sleep));
    s' := Scene(WithStatus(row, Polling, 0), session, Running(T, SID, Sleep));
    hide Leads;
    WakingOverwrites(row, session);
  }
}
