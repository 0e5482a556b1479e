/** Which finished tasks get their delivery row: all of them but those that a crash or their own holder's
    failed statement silences. */
module Announcement {
  import opened Wrappers
  import opened Tables
  import opened Gateway
  import opened Ownership
  import opened Cancellation
  import opened Reachability

  /** The worker is on its way to announce the outcome of its task. */
  ghost predicate Announcing(pc: Pc) {
    (pc.Releasing? && !pc.outcome.UserCancelled?) || pc.MarkingUnhealthy? || pc.ReadingTask? || pc.Inserting?
  }

  /** Its next write of the status, if any, is the guarded success write. */
  ghost predicate Passing(pc: Pc) {
    pc.Finishing? || (pc.Running? && pc.stage.FetchHq?)
  }

  /** A cancelled task is announced, too, if its holder goes on to finish it. */
  ghost predicate OnTheWay(pc: Pc, row: Task) {
    Announcing(pc) || (Passing(pc) && row.status.Cancelled?)
  }

  ghost predicate AboutToBeAnnounced(s: State, t: TaskId) {
    t in s.db.tasks &&
    exists w :: 0 <= w < |s.workers| && TaskOf(s.workers[w]) == Some(t) && OnTheWay(s.workers[w], s.db.tasks[t])
  }

  ghost predicate Promised(s: State, t: TaskId) {
    t in s.db.outbox || AboutToBeAnnounced(s, t)
  }

  ghost predicate Decided(row: Task) {
    row.webhookUrl.Some? && Terminal(row.status)
  }

  ghost predicate Finished(row: Task) {
    row.webhookUrl.Some? && (row.status.Succeeded? || row.status.Failed?)
  }

  /** The two statements a holder still issues for the announcement. */
  predicate Announces(stmt: Stmt) {
    stmt.ReadTask? || stmt.InsertDelivery?
  }

  /** The action that keeps the task, decided and about to be announced, from being announced: a crash, or
      its own holder's read or insert that fails. */
  ghost predicate Silences(s: State, a: Action, t: TaskId) {
    && t in s.db.tasks && Decided(s.db.tasks[t]) && AboutToBeAnnounced(s, t)
    && (a.Crash? || (a.Work? && a.w < |s.workers| && TaskOf(s.workers[a.w]) == Some(t) && !a.ok && Announces(a.stmt)))
  }

  lemma AnnouncingMove(pc: Pc, stmt: Stmt, ok: bool, next: Pc)
    requires Announcing(pc) && Follows(pc, stmt, ok, next)
    requires stmt.ReadTask? ==> (stmt.found.Some? <==> ok)
    ensures Announces(stmt) ==> stmt.t == pc.t
    ensures if !ok && Announces(stmt) then next.Idle?
            else (stmt.InsertDelivery? && next.Idle?) || (Announcing(next) && TaskOf(next) == Some(pc.t))
  {}

  lemma PassingMove(pc: Pc, stmt: Stmt, ok: bool, next: Pc, row: Task, now: nat)
    requires Passing(pc) && row.status.Cancelled? && Follows(pc, stmt, ok, next)
    ensures RowAfter(stmt, ok, row, now) == row && !Announces(stmt)
    ensures OnTheWay(next, row) && TaskOf(next) == Some(pc.t)
  {}

  lemma AnnouncerIsNoWriter(s: State, w: nat, t: TaskId)
    requires Inv(s) && w < |s.workers| && TaskOf(s.workers[w]) == Some(t) && Announcing(s.workers[w])
    ensures !BeingWritten(s, t) && t in s.db.tasks && t !in s.db.outbox
  {
    hide RowOk;
    assert LocalOk(s.workers[w], s.db.tasks[t], t in s.db.outbox);
  }

  /** The announcing worker's own move. */
  lemma AnnouncerWorks(s: State, w: nat, stmt: Stmt, ok: bool, next: Pc, t: TaskId)
    requires Inv(s) && Enabled(s, Work(w, stmt, ok, next))
    requires TaskOf(s.workers[w]) == Some(t) && Announcing(s.workers[w]) && Decided(s.db.tasks[t])
    ensures var s' := Step(s, Work(w, stmt, ok, next));
            if !ok && Announces(stmt) then t !in s'.db.outbox && !HeldBySomeone(s', t) else Promised(s', t)
  {
    var s' := Step(s, Work(w, stmt, ok, next));
    AnnouncerIsNoWriter(s, w, t);
    WorkFrame(s, w, stmt, ok, next);
    AnnouncingMove(s.workers[w], stmt, ok, next);
    TerminalAbsorbs(s, Work(w, stmt, ok, next), t);
    assert s'.workers[w] == next;
    assert forall v :: 0 <= v < |s'.workers| && v != w ==> s'.workers[v] == s.workers[v];
    hide Follows, Exec, LocalOk, RowOk, Announcing, Returns;
  }

  /** The passing worker's own move leaves the cancelled row alone and brings it nearer to the announcement. */
  lemma PasserWorks(s: State, w: nat, stmt: Stmt, ok: bool, next: Pc, t: TaskId)
    requires Inv(s) && Enabled(s, Work(w, stmt, ok, next)) && t in s.db.tasks && s.db.tasks[t].status.Cancelled?
    requires TaskOf(s.workers[w]) == Some(t) && Passing(s.workers[w])
    ensures var s' := Step(s, Work(w, stmt, ok, next));
            t in s'.db.tasks && s'.db.tasks[t] == s.db.tasks[t] && AboutToBeAnnounced(s', t) && !Announces(stmt)
  {
    hide Follows, Returns, Inv, LocalOk, RowOk, RowAfter, Exec, Passing, Announcing, TaskTarget, MoveOk;
    PassingMove(s.workers[w], stmt, ok, next, s.db.tasks[t], s.now);
    HeldWork(s, w, stmt, ok, next);
    WorkFrame(s, w, stmt, ok, next);
    assert Step(s, Work(w, stmt, ok, next)).workers[w] == next;
  }

  /** Nobody else touches a task whose holder is passing, and a crash silences it. */
  lemma PassingIsKept(s: State, a: Action, t: TaskId, w: nat)
    requires Inv(s) && Enabled(s, a) && t in s.db.tasks && s.db.tasks[t].status.Cancelled?
    requires w < |s.workers| && TaskOf(s.workers[w]) == Some(t) && Passing(s.workers[w])
    ensures t in Step(s, a).db.tasks && Step(s, a).db.tasks[t] == s.db.tasks[t]
    ensures !a.Crash? ==> AboutToBeAnnounced(Step(s, a), t)
    ensures a.Crash? ==> Silent(Step(s, a), t)
    ensures a.Work? && TaskOf(s.workers[a.w]) == Some(t) ==> !Announces(a.stmt)
  {
    var s' := Step(s, a);
    HolderKnows(s, w);
    hide LocalOk, RowOk, Exec, Passing, Announcing, Follows, Returns;
    match a
    case Work(v, stmt, ok, next) =>
      if v == w {
        PasserWorks(s, w, stmt, ok, next, t);
      } else {
        WorkSpares(s, v, stmt, ok, next, w);
        WorkFrame(s, v, stmt, ok, next);
        assert TaskOf(s.workers[v]) != Some(t);
        assert s'.workers[w] == s.workers[w];
      }
    case Request(stmt) => RequestPasses(s, stmt, t, w);
    case Tick => assert s'.workers == s.workers;
    case Crash =>
    case Recover =>
  }

  lemma RequestPasses(s: State, stmt: Stmt, t: TaskId, w: nat)
    requires Enabled(s, Request(stmt)) && t in s.db.tasks && s.db.tasks[t].status.Cancelled?
    requires w < |s.workers| && TaskOf(s.workers[w]) == Some(t) && Passing(s.workers[w])
    ensures var s' := Step(s, Request(stmt));
            t in s'.db.tasks && s'.db.tasks[t] == s.db.tasks[t] && AboutToBeAnnounced(s', t)
  {
    assert Step(s, Request(stmt)).workers[w] == s.workers[w];
  }

  /** For a decided task that is about to be announced, exactly the silencing actions break the promise, and
      then nobody will ever announce it. */
  lemma PromiseIsKept(s: State, a: Action, t: TaskId)
    requires Inv(s) && Enabled(s, a) && t in s.db.tasks && Decided(s.db.tasks[t]) && AboutToBeAnnounced(s, t)
    ensures Promised(Step(s, a), t) <==> !Silences(s, a, t)
    ensures Silences(s, a, t) ==> Silent(Step(s, a), t)
    ensures t in Step(s, a).db.tasks && Step(s, a).db.tasks[t] == s.db.tasks[t]
  {
    var w :| 0 <= w < |s.workers| && TaskOf(s.workers[w]) == Some(t) && OnTheWay(s.workers[w], s.db.tasks[t]);
    if Announcing(s.workers[w]) {
      AnnouncingIsKept(s, a, t, w);
    } else {
      hide Inv, Enabled, Step, Silent, Passing, Announcing, Terminal;
      PassingIsKept(s, a, t, w);
    }
  }

  lemma AnnouncingIsKept(s: State, a: Action, t: TaskId, w: nat)
    requires Inv(s) && Enabled(s, a) && t in s.db.tasks && Decided(s.db.tasks[t])
    requires w < |s.workers| && TaskOf(s.workers[w]) == Some(t) && Announcing(s.workers[w])
    ensures Promised(Step(s, a), t) <==> !Silences(s, a, t)
    ensures Silences(s, a, t) ==> Silent(Step(s, a), t)
    ensures t in Step(s, a).db.tasks && Step(s, a).db.tasks[t] == s.db.tasks[t]
  {
    var s' := Step(s, a);
    AnnouncerIsNoWriter(s, w, t);
    TerminalAbsorbs(s, a, t);
    hide LocalOk, RowOk, Exec, Announcing, Follows, Returns;
    match a
    case Work(v, stmt, ok, next) =>
      if v == w {
        AnnouncerWorks(s, w, stmt, ok, next, t);
      } else {
        assert TaskOf(s.workers[v]) != Some(t);
        assert s'.workers[w] == s.workers[w];
      }
    case Request(stmt) =>
      assert s'.workers == s.workers;
    case Tick =>
      assert s'.workers == s.workers;
    case _ =>
  }

  // How a task comes to be promised

  lemma FinishingRow(pc: Pc, stmt: Stmt, ok: bool, next: Pc, row: Task, now: nat)
    requires !pc.Idle? && Follows(pc, stmt, ok, next) && LocalOk(pc, row, false) && !Finished(row)
    requires Finished(RowAfter(stmt, ok, row, now))
    ensures Announcing(next) && TaskOf(next) == Some(pc.t)
  {}

  /** A row becomes finished only under the hands of a worker that goes on to announce it. */
  lemma FinishingWork(s: State, w: nat, stmt: Stmt, ok: bool, next: Pc, t: TaskId)
    requires Inv(s) && Enabled(s, Work(w, stmt, ok, next)) && t in s.db.tasks && !Finished(s.db.tasks[t])
    requires Finished(Step(s, Work(w, stmt, ok, next)).db.tasks[t])
    ensures Announcing(next) && TaskOf(next) == Some(t)
  {
    var pc := s.workers[w];
    WorkFrame(s, w, stmt, ok, next);
    if pc.Idle? {
      ClaimWork(s, w, stmt, ok, next);
    } else {
      HeldWork(s, w, stmt, ok, next);
      assert LocalOk(pc, s.db.tasks[pc.t], false);
      hide LocalOk, Follows;
      FinishingRow(pc, stmt, ok, next, s.db.tasks[pc.t], s.now);
    }
  }

  lemma OtherActionsFinishNothing(s: State, a: Action, t: TaskId)
    requires Enabled(s, a) && !a.Work? && t in Step(s, a).db.tasks && Finished(Step(s, a).db.tasks[t])
    ensures t in s.db.tasks && Finished(s.db.tasks[t])
  {}

  lemma BecomesPromised(s: State, a: Action, t: TaskId)
    requires Inv(s) && Enabled(s, a) && !(t in s.db.tasks && Finished(s.db.tasks[t]))
    requires t in Step(s, a).db.tasks && Finished(Step(s, a).db.tasks[t])
    ensures AboutToBeAnnounced(Step(s, a), t)
  {
    if a.Work? {
      WorkFrame(s, a.w, a.stmt, a.ok, a.next);
      FinishingWork(s, a.w, a.stmt, a.ok, a.next, t);
      assert Step(s, a).workers[a.w] == a.next;
    } else {
      OtherActionsFinishNothing(s, a, t);
    }
  }

  // Whole runs

  /** One of the first `i` actions silenced the task. */
  ghost predicate Silenced(states: seq<State>, actions: seq<Action>, i: nat, t: TaskId)
    requires |states| == |actions| + 1 && i < |states|
  {
    exists k :: 0 <= k < i && Silences(states[k], actions[k], t)
  }

  ghost predicate AnnouncedSoFar(states: seq<State>, actions: seq<Action>, i: nat, t: TaskId)
    requires |states| == |actions| + 1 && i < |states|
  {
    && (Silenced(states, actions, i, t) ==> Silent(states[i], t))
    && (t in states[i].db.tasks && Finished(states[i].db.tasks[t]) && !Silenced(states, actions, i, t) ==>
          Promised(states[i], t))
  }

  lemma StepAnnounces(states: seq<State>, actions: seq<Action>, i: nat, t: TaskId)
    requires IsRun(states, actions) && i + 1 < |states| && Inv(states[i]) && AnnouncedSoFar(states, actions, i, t)
    ensures AnnouncedSoFar(states, actions, i + 1, t)
  {
    var s, a := states[i], actions[i];
    assert Enabled(s, a) && states[i + 1] == Step(s, a);
    assert Silenced(states, actions, i + 1, t) <==> Silenced(states, actions, i, t) || Silences(s, a, t);
    hide Inv, Enabled, Step, Finished, Silenced;
    if Silenced(states, actions, i, t) {
      SilentForever(s, a, t);
    } else if Silences(s, a, t) {
      PromiseIsKept(s, a, t);
    } else if t in Step(s, a).db.tasks && Finished(Step(s, a).db.tasks[t]) {
      StaysPromised(s, a, t);
    }
  }

  lemma StaysPromised(s: State, a: Action, t: TaskId)
    requires Inv(s) && Enabled(s, a) && !Silences(s, a, t)
    requires t in s.db.tasks && Finished(s.db.tasks[t]) ==> Promised(s, t)
    requires t in Step(s, a).db.tasks && Finished(Step(s, a).db.tasks[t])
    ensures Promised(Step(s, a), t)
  {
    hide Inv, Enabled, Step, Silences;
    if !(t in s.db.tasks && Finished(s.db.tasks[t])) {
      BecomesPromised(s, a, t);
    } else if t in s.db.outbox {
      AnnouncedIsSettled(s, a, t);
    } else {
      PromiseIsKept(s, a, t);
    }
  }

  lemma {:induction false} RunAnnounces(n: nat, states: seq<State>, actions: seq<Action>, i: nat, t: TaskId)
    requires IsRun(states, actions) && states[0] == Start(n) && i < |states|
    ensures AnnouncedSoFar(states, actions, i, t)
    decreases i
  {
    RunIsSafe(n, states, actions);
    hide Inv, Silences, Promised, Finished;
    if i == 0 {
      assert !Silenced(states, actions, 0, t);
      assert t !in states[0].db.tasks;
    } else {
      RunAnnounces(n, states, actions, i - 1, t);
      StepAnnounces(states, actions, i - 1, t);
    }
  }

  /** In every state of every run: a task that succeeded or failed and asked for a webhook has its delivery
      row, or a worker on the way to write it, exactly when no crash and no failed read or insert of its own
      holder hit it after its outcome was written; otherwise it is silent for good. */
  lemma FinishedIsAnnouncedExactly(n: nat, states: seq<State>, actions: seq<Action>, i: nat, t: TaskId)
    requires IsRun(states, actions) && states[0] == Start(n) && i < |states|
    requires t in states[i].db.tasks && Finished(states[i].db.tasks[t])
    ensures Promised(states[i], t) <==> !Silenced(states, actions, i, t)
    ensures !Promised(states[i], t) ==> Silent(states[i], t)
  {
    RunAnnounces(n, states, actions, i, t);
    hide Silenced, Announcing;
  }

  /** In every reachable state only tasks that asked for a webhook have a delivery row, and it names their
      final status. */
  lemma OnlyWebhooksAreAnnounced(n: nat, s: State, t: TaskId)
    requires Reachable(n, s) && t in s.db.outbox
    ensures t in s.db.tasks && s.db.tasks[t].webhookUrl.Some?
    ensures Terminal(s.db.tasks[t].status) && s.db.outbox[t] == s.db.tasks[t].status
  {
    ReachableIsSafe(n, s);
    hide HoldersOk, Disjoint, RowsOk, QuietBoot;
  }

  // A run that ends silent

  lemma FailsAndReleases() returns (actions: seq<Action>, row: Task, session: Session)
    ensures Leads(Start(1), actions, Scene(row, session, Releasing(T, SID, Errored)))
    ensures row.status.Failed? && row.webhookUrl == Some("u")
  {
    actions, row, session := AssignedRun(Some("u"));
    var stmts := [AssignSession(T, SID), Local, ReadStatus(T, false), MarkFailed(T, "e")];
    var pcs := [Running(T, SID, Assign), Running(T, SID, ReadMeta), Failing(T, SID), MarkingFailed(T, SID),
                Releasing(T, SID, Errored)];
    hide Leads, Scene;
    for i := 0 to 4
      invariant Leads(Start(1), actions, Scene(row, session, pcs[i]))
      invariant !row.status.Cancelled? && row.webhookUrl == Some("u") && (i == 4 ==> row.status.Failed?)
    {
      SceneNext(Start(1), actions, row, session, pcs[i], stmts[i], true, pcs[i + 1]);
      actions := actions + [Work(0, stmts[i], true, pcs[i + 1])];
      row := TaskRow(stmts[i], row, 0);
    }
  }

  lemma Releases(row: Task, session: Session)
    ensures var a := Work(0, ReleaseSession(SID, false, Some("e")), true, ReadingTask(T));
            var s := Scene(row, session, Releasing(T, SID, Errored));
            Enabled(s, a) && Step(s, a) == Scene(row, ReleasedRow(session, false, Some("e")), ReadingTask(T))
  {
    var s := Scene(row, session, Releasing(T, SID, Errored));
    var a := Work(0, ReleaseSession(SID, false, Some("e")), true, ReadingTask(T));
    assert Step(s, a).db.sessions == map[SID := ReleasedRow(session, false, Some("e"))];
  }

  lemma ReleasesFirst(row: Task, session: Session)
    ensures var s := Scene(row, session, Releasing(T, SID, Errored));
            var a := Work(0, ReleaseSession(SID, false, Some("e")), true, MarkingUnhealthy(T, SID));
            Enabled(s, a) &&
            Step(s, a) == Scene(row, ReleasedRow(session, false, Some("e")), MarkingUnhealthy(T, SID))
  {
    var s := Scene(row, session, Releasing(T, SID, Errored));
    var a := Work(0, ReleaseSession(SID, false, Some("e")), true, MarkingUnhealthy(T, SID));
    assert Step(s, a).db.sessions == map[SID := ReleasedRow(session, false, Some("e"))];
  }

  lemma MarksThen(row: Task, session: Session)
    ensures var s := Scene(row, session, MarkingUnhealthy(T, SID));
            var a := Work(0, MarkUnhealthy(SID), true, ReadingTask(T));
            Enabled(s, a) && Step(s, a) == Scene(row, session.(healthy := false), ReadingTask(T))
  {
    var s := Scene(row, session, MarkingUnhealthy(T, SID));
    var a := Work(0, MarkUnhealthy(SID), true, ReadingTask(T));
    assert Step(s, a).db.sessions == map[SID := session.(healthy := false)];
  }

  /** A run in which an error takes the session out of the pool: after the release it is marked unhealthy, and it
      is not picked any more. */
  lemma ErrorTakesSessionOut() returns (actions: seq<Action>, s: State)
    ensures Leads(Start(1), actions, s)
    ensures SID in s.db.sessions && !s.db.sessions[SID].healthy
    ensures !Pickable(s.db.sessions, SID)
  {
    var row, session;
    actions, row, session := FailsAndReleases();
    ReleasesFirst(row, session);
    var released := ReleasedRow(session, false, Some("e"));
    MarksThen(row, released);
    s := Scene(row, released.(healthy := false), ReadingTask(T));
    assert !Pickable(s.db.sessions, SID);
    hide Leads, Scene, Enabled, Step;
    var release := Work(0, ReleaseSession(SID, false, Some("e")), true, MarkingUnhealthy(T, SID));
    LeadsNext(Start(1), actions, Scene(row, session, Releasing(T, SID, Errored)), release);
    actions := actions + [release];
    var mark := Work(0, MarkUnhealthy(SID), true, ReadingTask(T));
    LeadsNext(Start(1), actions, Scene(row, released, MarkingUnhealthy(T, SID)), mark);
    actions := actions + [mark];
  }

  lemma ReadFails(row: Task, session: Session)
    ensures var a := Work(0, ReadTask(T, None), false, Idle);
            var s := Scene(row, session, ReadingTask(T));
            Enabled(s, a) && Step(s, a) == Scene(row, session, Idle)
  {}

  /** One failed read after the outcome is written: the task has failed, asked for a webhook, and will never
      be announced. */
  lemma FailedReadSilences() returns (actions: seq<Action>, s: State)
    ensures Leads(Start(1), actions, s)
    ensures T in s.db.tasks && Finished(s.db.tasks[T]) && Silent(s, T)
  {
    var row, session;
    actions, row, session := FailsAndReleases();
    Releases(row, session);
    var released := ReleasedRow(session, false, Some("e"));
    ReadFails(row, released);
    s := Scene(row, released, Idle);
    assert Silent(s, T);
    hide Leads, Scene, Enabled, Step, Silent;
    var release := Work(0, ReleaseSession(SID, false, Some("e")), true, ReadingTask(T));
    LeadsNext(Start(1), actions, Scene(row, session, Releasing(T, SID, Errored)), release);
    actions := actions + [release];
    LeadsNext(Start(1), actions, Scene(row, released, ReadingTask(T)), Work(0, ReadTask(T, None), false, Idle));
    actions := actions + [Work(0, ReadTask(T, None), false, Idle)];
  }
}
