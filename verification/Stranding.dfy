/** Tasks that are left behind in a transient status: how they get there, and how they get out. */
module Stranding {
  import opened Wrappers
  import opened Tables
  import opened Gateway
  import opened Ownership
  import opened Reachability

  /** In a transient status, and no worker will write that status any more. */
  ghost predicate Stranded(s: State, t: TaskId) {
    t in s.db.tasks && Transient(s.db.tasks[t].status) && !BeingWritten(s, t)
  }

  /** The last write of a holder that lets go. */
  predicate LetsGo(stmt: Stmt) {
    stmt.RequeueTask? || stmt.MarkSucceeded? || stmt.MarkFailed?
  }

  /** A crash, or the holder's own last write fails. */
  ghost predicate Strands(s: State, a: Action, t: TaskId) {
    && t in s.db.tasks && Transient(s.db.tasks[t].status) && BeingWritten(s, t)
    && (a.Crash? || (a.Work? && a.w < |s.workers| && TaskOf(s.workers[a.w]) == Some(t) && !a.ok && LetsGo(a.stmt)))
  }

  /** A cancel, which a downloading task does not take, or a restart after more than ten idle minutes. */
  ghost predicate Rescues(s: State, a: Action, t: TaskId) {
    t in s.db.tasks &&
    match a
    case Request(stmt) => stmt == CancelTask(t) && Cancellable(s.db.tasks[t].status)
    case Recover =>
      s.phase.Booting? && s.phase.done < RECOVERY_STEPS && RecoveryStmt(s.phase.done) == RequeueStuck
      && s.db.tasks[t].updatedAt + STUCK_SECS < s.now
    case _ => false
  }

  // One move of a worker

  lemma StageKeepsWriting(pc: Pc, stmt: Stmt, ok: bool, next: Pc)
    requires pc.Running? && Follows(pc, stmt, ok, next)
    ensures Writing(next) && TaskOf(next) == Some(pc.t) && !LetsGo(stmt)
  {}

  /** A writing holder of a transient task leaves it behind exactly if its last write fails. */
  lemma LeavingMove(pc: Pc, stmt: Stmt, ok: bool, next: Pc, row: Task, now: nat)
    requires Writing(pc) && Follows(pc, stmt, ok, next) && Transient(row.status) && Informed(stmt, row)
    ensures Transient(RowAfter(stmt, ok, row, now).status) && !(Writing(next) && TaskOf(next) == Some(pc.t))
       <==> !ok && LetsGo(stmt)
  {
    if pc.Running? {
      StageKeepsWriting(pc, stmt, ok, next);
      hide Follows;
    }
  }

  /** A worker that turns a task that is not transient into a transient one goes on to write it. */
  lemma EnteringMove(pc: Pc, stmt: Stmt, ok: bool, next: Pc, row: Task, now: nat)
    requires !pc.Idle? && Follows(pc, stmt, ok, next) && LocalOk(pc, row, false) && !Transient(row.status)
    requires Transient(RowAfter(stmt, ok, row, now).status)
    ensures Writing(next) && TaskOf(next) == Some(pc.t)
  {
    if pc.Running? {
      StageKeepsWriting(pc, stmt, ok, next);
      hide Follows;
    }
  }

  lemma OthersKeepWriting(s: State, v: nat, stmt: Stmt, ok: bool, next: Pc, t: TaskId)
    requires Enabled(s, Work(v, stmt, ok, next))
    ensures BeingWritten(Step(s, Work(v, stmt, ok, next)), t) <==>
              (TaskOf(next) == Some(t) && Writing(next)) ||
              exists w :: 0 <= w < |s.workers| && w != v && TaskOf(s.workers[w]) == Some(t) && Writing(s.workers[w])
  {
    hide Follows, Returns, Writing, Exec;
    var s' := Step(s, Work(v, stmt, ok, next));
    assert s'.workers[v] == next;
    assert forall w :: 0 <= w < |s.workers| && w != v ==> s'.workers[w] == s.workers[w];
  }

  /** The holder's own move. */
  lemma HolderStrands(s: State, v: nat, stmt: Stmt, ok: bool, next: Pc, t: TaskId)
    requires Inv(s) && Enabled(s, Work(v, stmt, ok, next)) && TaskOf(s.workers[v]) == Some(t)
    requires t in s.db.tasks && Writing(s.workers[v])
    ensures var a := Work(v, stmt, ok, next);
            Stranded(Step(s, a), t) <==> Strands(s, a, t)
  {
    var pc, row := s.workers[v], s.db.tasks[t];
    HolderKnows(s, v);
    WorkInformed(s, v, stmt, ok, next);
    HeldWork(s, v, stmt, ok, next);
    WorkFrame(s, v, stmt, ok, next);
    OthersKeepWriting(s, v, stmt, ok, next, t);
    assert BeingWritten(s, t);
    hide Follows, Returns, Step, RowOk, MoveOk, TaskTarget;
    if Transient(row.status) {
      hide LocalOk;
      LeavingMove(pc, stmt, ok, next, row, s.now);
    } else if Transient(RowAfter(stmt, ok, row, s.now).status) {
      EnteringMove(pc, stmt, ok, next, row, s.now);
    }
  }

  /** A holder past its last write leaves the row alone. */
  lemma FormerWriterWorks(s: State, v: nat, stmt: Stmt, ok: bool, next: Pc, t: TaskId)
    requires Inv(s) && Enabled(s, Work(v, stmt, ok, next)) && TaskOf(s.workers[v]) == Some(t)
    requires !Writing(s.workers[v])
    ensures var s' := Step(s, Work(v, stmt, ok, next));
            t in s.db.tasks && t in s'.db.tasks && s'.db.tasks[t] == s.db.tasks[t]
            && !BeingWritten(s, t) && !BeingWritten(s', t)
  {
    HolderKnows(s, v);
    assert !s.db.tasks[t].status.Queued?;
    HeldWork(s, v, stmt, ok, next);
    WorkAbsorbs(s, v, stmt, ok, next, t);
    WorkFrame(s, v, stmt, ok, next);
    OthersKeepWriting(s, v, stmt, ok, next, t);
    hide Follows, Returns, Step, LocalOk, RowOk, Writing;
  }

  /** A worker that does not hold the task leaves it alone or claims it from the queue. */
  lemma OtherWorks(s: State, v: nat, stmt: Stmt, ok: bool, next: Pc, t: TaskId)
    requires Inv(s) && Enabled(s, Work(v, stmt, ok, next)) && TaskOf(s.workers[v]) != Some(t) && t in s.db.tasks
    ensures var s' := Step(s, Work(v, stmt, ok, next));
            t in s'.db.tasks &&
            if TaskOf(next) == Some(t) then s.db.tasks[t].status.Queued? && BeingWritten(s', t)
            else s'.db.tasks[t] == s.db.tasks[t] && (BeingWritten(s', t) <==> BeingWritten(s, t))
  {
    WorkFrame(s, v, stmt, ok, next);
    OthersKeepWriting(s, v, stmt, ok, next, t);
    if s.workers[v].Idle? {
      ClaimWork(s, v, stmt, ok, next);
    } else {
      HeldWork(s, v, stmt, ok, next);
    }
    hide Follows, Returns, Step, RowOk, TaskTarget, Inv;
  }

  ghost predicate StrandedAfter(s: State, a: Action, t: TaskId) {
    if Stranded(s, t) then !Rescues(s, a, t) else Strands(s, a, t)
  }

  lemma WorkStrands(s: State, v: nat, stmt: Stmt, ok: bool, next: Pc, t: TaskId)
    requires Inv(s) && Enabled(s, Work(v, stmt, ok, next)) && t in s.db.tasks
    ensures var a := Work(v, stmt, ok, next);
            && (Stranded(Step(s, a), t) <==> StrandedAfter(s, a, t))
            && (Stranded(s, t) ==> Step(s, a).db.tasks[t] == s.db.tasks[t])
  {
    hide Inv, Step, Follows, Returns, Writing;
    if TaskOf(s.workers[v]) != Some(t) {
      OtherWorks(s, v, stmt, ok, next, t);
    } else if Writing(s.workers[v]) {
      HolderStrands(s, v, stmt, ok, next, t);
      assert BeingWritten(s, t);
    } else {
      FormerWriterWorks(s, v, stmt, ok, next, t);
    }
  }

  lemma OtherActionsStrand(s: State, a: Action, t: TaskId)
    requires Inv(s) && Enabled(s, a) && !a.Work? && t in s.db.tasks
    ensures t in Step(s, a).db.tasks
    ensures Stranded(Step(s, a), t) <==> StrandedAfter(s, a, t)
    ensures Stranded(s, t) && !Rescues(s, a, t) ==> Step(s, a).db.tasks[t] == s.db.tasks[t]
    ensures Stranded(s, t) && Rescues(s, a, t) ==>
      Step(s, a).db.tasks[t].status == if a.Recover? then Queued else Cancelled
  {
    var s' := Step(s, a);
    hide HoldersOk, Disjoint, OutboxOk, RowsOk, LocalOk, RowOk;
    match a
    case Request(stmt) => assert s'.workers == s.workers;
    case Recover => assert s'.workers == s.workers;
    case Tick => assert s'.workers == s.workers;
    case Crash =>
  }

  lemma NewTasksAreNotStranded(s: State, a: Action, t: TaskId)
    requires Enabled(s, a) && t !in s.db.tasks
    ensures !Stranded(Step(s, a), t)
  {
    if a.Work? {
      WorkFrame(s, a.w, a.stmt, a.ok, a.next);
    }
  }

  /** A task is stranded after an action exactly if it was and the action is no rescue, or if a crash or its own
      holder's failed last write strands it; while it is stranded its row does not change, and a rescue cancels
      it or puts it back in the queue. */
  lemma StrandedExactly(s: State, a: Action, t: TaskId)
    requires Inv(s) && Enabled(s, a)
    ensures Stranded(Step(s, a), t) <==> StrandedAfter(s, a, t)
    ensures Stranded(s, t) && !Rescues(s, a, t) ==> t in Step(s, a).db.tasks && Step(s, a).db.tasks[t] == s.db.tasks[t]
    ensures Stranded(s, t) && Rescues(s, a, t) ==>
      t in Step(s, a).db.tasks && Step(s, a).db.tasks[t].status == if a.Recover? then Queued else Cancelled
  {
    hide Inv, Enabled, Step, BeingWritten;
    if t !in s.db.tasks {
      NewTasksAreNotStranded(s, a, t);
    } else if a.Work? {
      WorkStrands(s, a.w, a.stmt, a.ok, a.next, t);
    } else {
      OtherActionsStrand(s, a, t);
    }
  }

  // Whole runs

  /** Among the first `i` actions one stranded the task, and none after it rescued it. */
  ghost predicate LeftBehind(states: seq<State>, actions: seq<Action>, i: nat, t: TaskId)
    requires |states| == |actions| + 1 && i < |states|
  {
    exists k :: 0 <= k < i && Strands(states[k], actions[k], t) && NotRescued(states, actions, k + 1, i, t)
  }

  ghost predicate NotRescued(states: seq<State>, actions: seq<Action>, from: nat, to: nat, t: TaskId)
    requires |states| == |actions| + 1 && to < |states|
  {
    forall j :: from <= j < to ==> !Rescues(states[j], actions[j], t)
  }

  lemma LeftBehindNext(states: seq<State>, actions: seq<Action>, i: nat, t: TaskId)
    requires |states| == |actions| + 1 && i + 1 < |states|
    ensures LeftBehind(states, actions, i + 1, t) <==>
              Strands(states[i], actions[i], t) ||
              (LeftBehind(states, actions, i, t) && !Rescues(states[i], actions[i], t))
  {
    hide Strands, Rescues;
    if Strands(states[i], actions[i], t) {
      assert NotRescued(states, actions, i + 1, i + 1, t);
    }
    if LeftBehind(states, actions, i, t) && !Rescues(states[i], actions[i], t) {
      var k :| 0 <= k < i && Strands(states[k], actions[k], t) && NotRescued(states, actions, k + 1, i, t);
      assert NotRescued(states, actions, k + 1, i + 1, t);
    }
    if LeftBehind(states, actions, i + 1, t) && !Strands(states[i], actions[i], t) {
      var k :| 0 <= k < i + 1 && Strands(states[k], actions[k], t) && NotRescued(states, actions, k + 1, i + 1, t);
      assert NotRescued(states, actions, k + 1, i, t);
    }
  }

  /** In every state of every run: a transient task has a worker that will write its status again, unless a crash
      or its holder's failed last write left it behind and neither a cancel nor a late enough restart came
      since. */
  lemma {:induction false} RunStrandsExactly(n: nat, states: seq<State>, actions: seq<Action>, i: nat, t: TaskId)
    requires IsRun(states, actions) && states[0] == Start(n) && i < |states|
    ensures Stranded(states[i], t) <==> LeftBehind(states, actions, i, t)
    decreases i
  {
    RunIsSafe(n, states, actions);
    hide Inv, Enabled, Step, LeftBehind, Strands, Rescues;
    if i == 0 {
      assert !LeftBehind(states, actions, 0, t) by { NothingBehind(states, actions, t); }
    } else {
      var s, a := states[i - 1], actions[i - 1];
      assert Enabled(s, a) && states[i] == Step(s, a);
      RunStrandsExactly(n, states, actions, i - 1, t);
      LeftBehindNext(states, actions, i - 1, t);
      StrandedExactly(s, a, t);
      StrandsNoOneTwice(s, a, t);
    }
  }

  lemma NothingBehind(states: seq<State>, actions: seq<Action>, t: TaskId)
    requires |states| == |actions| + 1
    ensures !LeftBehind(states, actions, 0, t)
  {}

  lemma StrandsNoOneTwice(s: State, a: Action, t: TaskId)
    ensures Strands(s, a, t) ==> !Stranded(s, t)
  {}

  /** One failed statement and no crash: the claimed task finds no session, and the write that would put it back
      in the queue fails. */
  lemma FailedRequeueStrands() returns (actions: seq<Action>, s: State)
    ensures Leads(Start(1), actions, s) && Stranded(s, T) && s.phase.Up? && s.workers == [Idle]
  {
    var first, second := Work(0, PickNothing, true, Requeueing(T)), Work(0, RequeueTask(T), false, Idle);
    var s0 := ClaimedState(None);
    assert Enabled(s0, first);
    var s1 := Step(s0, first);
    assert s1.workers == [Requeueing(T)] && s1.db == s0.db && s1.phase.Up?;
    assert Enabled(s1, second);
    s := Step(s1, second);
    assert s.workers == [Idle] && s.db == s0.db && s.phase.Up? && Stranded(s, T);
    hide Leads, Enabled, Step, ClaimedState, Stranded, Follows, Returns;
    actions := ClaimedRun(None);
    LeadsNext(Start(1), actions, s0, first);
    actions := actions + [first];
    LeadsNext(Start(1), actions, s1, second);
    actions := actions + [second];
  }
}
