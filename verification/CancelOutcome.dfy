/** Which cancelled tasks are announced, over every continuation. */
module CancelOutcome {
  import opened Wrappers
  import opened Tables
  import opened Gateway
  import opened Ownership
  import opened Cancellation
  import opened Announcement
  import opened Reachability

  /** Along the continuation some action silences the task. */
  ghost predicate SilencedOn(s: State, actions: seq<Action>, t: TaskId)
    decreases |actions|
  {
    actions != [] && Enabled(s, actions[0]) &&
    (Silences(s, actions[0], t) || SilencedOn(Step(s, actions[0]), actions[1..], t))
  }

  lemma {:induction false} AnnouncedStays(s: State, actions: seq<Action>, s': State, t: TaskId)
    requires Inv(s) && Leads(s, actions, s') && t in s.db.outbox
    ensures t in s'.db.outbox && !SilencedOn(s, actions, t)
    decreases |actions|
  {
    AnnouncedIsFree(s, t);
    hide Enabled, Step, Inv, Silences;
    if actions != [] {
      StepKeepsInv(s, actions[0]);
      AnnouncedIsSettled(s, actions[0], t);
      NotSilenced(s, actions[0], t);
      AnnouncedStays(Step(s, actions[0]), actions[1..], s', t);
    }
  }

  lemma AnnouncedIsFree(s: State, t: TaskId)
    requires Inv(s) && t in s.db.outbox
    ensures !AboutToBeAnnounced(s, t)
  {
    hide OnTheWay, LocalOk, RowOk;
    forall w | 0 <= w < |s.workers| && TaskOf(s.workers[w]) == Some(t)
      ensures false
    {
      HolderKnows(s, w);
    }
  }

  lemma NotSilenced(s: State, a: Action, t: TaskId)
    requires !AboutToBeAnnounced(s, t)
    ensures !Silences(s, a, t)
  {}

  lemma {:induction false} SilentStays(s: State, actions: seq<Action>, s': State, t: TaskId)
    requires Inv(s) && Leads(s, actions, s') && Silent(s, t)
    ensures Silent(s', t) && s'.db.tasks[t] == s.db.tasks[t]
    decreases |actions|
  {
    hide Enabled, Step, Inv, HeldBySomeone;
    if actions != [] {
      StepKeepsInv(s, actions[0]);
      SilentForever(s, actions[0], t);
      SilentStays(Step(s, actions[0]), actions[1..], s', t);
    }
  }

  lemma SilentIsNotPromised(s: State, t: TaskId)
    requires Silent(s, t)
    ensures !Promised(s, t)
  {}

  /** A decided task that is about to be announced stays so along a continuation exactly if none of its actions
      silences it; otherwise it ends silent. */
  lemma {:induction false} PromiseAlong(s: State, actions: seq<Action>, s': State, t: TaskId)
    requires Inv(s) && Leads(s, actions, s') && t in s.db.tasks && Decided(s.db.tasks[t]) && AboutToBeAnnounced(s, t)
    ensures Promised(s', t) <==> !SilencedOn(s, actions, t)
    ensures SilencedOn(s, actions, t) ==> Silent(s', t)
    decreases |actions|
  {
    hide Enabled, Step, Inv, Silences, AboutToBeAnnounced, Decided, Silent;
    if actions != [] {
      var next, rest := Step(s, actions[0]), actions[1..];
      StepKeepsInv(s, actions[0]);
      PromiseIsKept(s, actions[0], t);
      if Silences(s, actions[0], t) {
        SilentStays(next, rest, s', t);
        SilentIsNotPromised(s', t);
      } else if t in next.db.outbox {
        AnnouncedStays(next, rest, s', t);
      } else {
        PromiseAlong(next, rest, s', t);
      }
    }
  }

  lemma {:induction false} DoomedAlong(s: State, actions: seq<Action>, s': State, w: nat, t: TaskId, sid: SessionId)
    requires Inv(s) && Leads(s, actions, s') && AllReadsWork(actions, w, t)
    requires Doomed(s, w, t, sid) || (Silent(s, t) && IsCancelled(s, t))
    ensures IsCancelled(s', t) && t !in s'.db.outbox
    decreases |actions|
  {
    hide Enabled, Step, Inv, HeldBySomeone;
    if actions != [] {
      assert ReadsWork(actions[0], w, t);
      StepKeepsInv(s, actions[0]);
      if Doomed(s, w, t, sid) {
        DoomedStep(s, actions[0], w, t, sid);
      } else {
        SilentForever(s, actions[0], t);
      }
      assert forall i :: 0 <= i < |actions[1..]| ==> actions[1..][i] == actions[i + 1];
      DoomedAlong(Step(s, actions[0]), actions[1..], s', w, t, sid);
    }
  }

  /** Along every continuation the task is announced, or about to be, exactly if nothing silences it. */
  ghost predicate WillBeAnnounced(s: State, t: TaskId) {
    forall actions, s' :: Leads(s, actions, s') ==> (Promised(s', t) <==> !SilencedOn(s, actions, t))
  }

  /** Along no continuation in which the status reads of worker `w` work is the task ever announced. */
  ghost predicate NeverAnnounced(s: State, w: nat, t: TaskId) {
    forall actions, s' :: Leads(s, actions, s') && AllReadsWork(actions, w, t) ==> t !in s'.db.outbox
  }

  /** The cancelled task of a worker at a place where the cancel sticks: if the worker is already announcing, or
      only its guarded success write lies before the announcement, the cancel will be announced unless a crash
      or its own failed read or insert silences it; otherwise it never will be. */
  lemma CancelIsAnnouncedExactly(n: nat, s: State, w: nat, t: TaskId)
    requires Reachable(n, s) && w < |s.workers| && TaskOf(s.workers[w]) == Some(t)
    requires IsCancelled(s, t) && s.db.tasks[t].webhookUrl.Some? && SafePc(s.workers[w])
    ensures OnTheWay(s.workers[w], s.db.tasks[t]) <==> WillBeAnnounced(s, t)
    ensures !OnTheWay(s.workers[w], s.db.tasks[t]) <==> NeverAnnounced(s, w, t)
  {
    ReachableIsSafe(n, s);
    if OnTheWay(s.workers[w], s.db.tasks[t]) {
      OnTheWayIsAnnounced(s, w, t);
    } else {
      OtherwiseNever(s, w, t);
    }
  }

  lemma OnTheWayIsAnnounced(s: State, w: nat, t: TaskId)
    requires Inv(s) && w < |s.workers| && TaskOf(s.workers[w]) == Some(t)
    requires IsCancelled(s, t) && s.db.tasks[t].webhookUrl.Some? && OnTheWay(s.workers[w], s.db.tasks[t])
    ensures WillBeAnnounced(s, t) && !NeverAnnounced(s, w, t)
  {
    hide Inv, OnTheWay, Leads;
    forall actions, s' | Leads(s, actions, s')
      ensures Promised(s', t) <==> !SilencedOn(s, actions, t)
    {
      PromiseAlong(s, actions, s', t);
    }
    var actions, s' := IsAnnounced(s, w, t);
    assert Leads(s, actions, s');
  }

  lemma HeldByOne(s: State, w: nat, t: TaskId)
    requires Inv(s) && w < |s.workers| && TaskOf(s.workers[w]) == Some(t)
    requires t in s.db.tasks && !OnTheWay(s.workers[w], s.db.tasks[t])
    ensures !Promised(s, t)
  {
    HolderKnows(s, w);
    hide OnTheWay, LocalOk, RowOk;
    forall v | 0 <= v < |s.workers| && TaskOf(s.workers[v]) == Some(t)
      ensures v == w
    {}
  }

  lemma NotOnTheWayIsDoomed(s: State, w: nat, t: TaskId)
    requires Inv(s) && w < |s.workers| && TaskOf(s.workers[w]) == Some(t) && IsCancelled(s, t)
    requires SafePc(s.workers[w]) && !OnTheWay(s.workers[w], s.db.tasks[t])
    ensures Doomed(s, w, t, s.workers[w].sid)
  {
    HolderKnows(s, w);
    hide LocalOk, RowOk;
  }

  lemma OtherwiseNever(s: State, w: nat, t: TaskId)
    requires Inv(s) && w < |s.workers| && TaskOf(s.workers[w]) == Some(t) && IsCancelled(s, t)
    requires SafePc(s.workers[w]) && !OnTheWay(s.workers[w], s.db.tasks[t])
    ensures NeverAnnounced(s, w, t) && !WillBeAnnounced(s, t)
  {
    NotOnTheWayIsDoomed(s, w, t);
    HeldByOne(s, w, t);
    hide Inv, OnTheWay, Doomed, SafePc;
    forall actions, s' | Leads(s, actions, s') && AllReadsWork(actions, w, t)
      ensures t !in s'.db.outbox
    {
      DoomedAlong(s, actions, s', w, t, s.workers[w].sid);
    }
    assert Leads(s, [], s) && !SilencedOn(s, [], t);
  }

  // The announcement itself

  /** How many moves of its own the worker is away from the announcement. */
  function MovesToGo(pc: Pc): nat {
    match pc
    case Inserting(_, _) => 1
    case ReadingTask(_) => 2
    case Finishing(_, _, _) => 4
    case Running(_, _, _) => 5
    case _ => 3
  }

  /** The next one of them. */
  function NextMove(pc: Pc, st: Status): (Stmt, Pc) {
    match pc
    case Running(t, sid, FetchHq(url)) => (Local, Finishing(t, sid, url))
    case Finishing(t, sid, url) => (MarkSucceeded(t, url), Releasing(t, sid, Success))
    case Releasing(t, sid, outcome) => (ReleaseSession(sid, outcome.Success?, None), ReadingTask(t))
    case MarkingUnhealthy(t, sid) => (MarkUnhealthy(sid), ReadingTask(t))
    case ReadingTask(t) => (ReadTask(t, Some(st)), Inserting(t, st))
    case Inserting(t, event) => (InsertDelivery(t, event), Idle)
    case _ => (Local, pc)
  }

  function MoveOf(w: nat, pc: Pc, st: Status): Action {
    var (stmt, next) := NextMove(pc, st);
    Work(w, stmt, true, next)
  }

  lemma NextMoveFollows(pc: Pc, row: Task)
    requires OnTheWay(pc, row)
    ensures var (stmt, next) := NextMove(pc, row.status);
            && Follows(pc, stmt, true, next) && !stmt.ReadStatus? && !stmt.PickSession? && !stmt.PickNothing?
            && !stmt.ClaimTask? && !stmt.ClaimNothing?
            && (stmt.ReadTask? ==> stmt == ReadTask(pc.t, Some(row.status)))
            && if MovesToGo(pc) == 1 then stmt.InsertDelivery? && stmt.t == pc.t
               else !next.Idle? && next.t == pc.t && MovesToGo(next) == MovesToGo(pc) - 1
  {}

  lemma NextMoveWorks(s: State, w: nat, t: TaskId)
    requires Inv(s) && w < |s.workers| && TaskOf(s.workers[w]) == Some(t)
    requires IsCancelled(s, t) && s.db.tasks[t].webhookUrl.Some? && OnTheWay(s.workers[w], s.db.tasks[t])
    ensures var a := MoveOf(w, s.workers[w], s.db.tasks[t].status);
            Enabled(s, a) && ReadsWork(a, w, t) &&
            var s' := Step(s, a);
            && Inv(s') && |s'.workers| == |s.workers| && t in s'.db.tasks && s'.db.tasks[t] == s.db.tasks[t]
            && if MovesToGo(s.workers[w]) == 1 then t in s'.db.outbox
               else TaskOf(s'.workers[w]) == Some(t) && OnTheWay(s'.workers[w], s'.db.tasks[t])
                    && MovesToGo(s'.workers[w]) == MovesToGo(s.workers[w]) - 1
  {
    var pc, row := s.workers[w], s.db.tasks[t];
    var a := MoveOf(w, pc, row.status);
    NextMoveFollows(pc, row);
    assert s.phase.Up? && Enabled(s, a);
    StepKeepsInv(s, a);
    hide Inv, NextMove, MovesToGo, LocalOk;
    WorkFrame(s, w, a.stmt, true, a.next);
    if Announcing(pc) {
      assert Decided(row);
      AnnouncingIsKept(s, a, t, w);
      hide Announcing, Follows, AboutToBeAnnounced;
      if !a.next.Idle? {
        StillAnnouncing(pc, a.stmt, a.next, row);
      }
    } else {
      PasserWorks(s, w, a.stmt, true, a.next, t);
      hide AboutToBeAnnounced, Follows;
      StillPassing(pc, a.stmt, a.next, row);
    }
  }

  lemma StillAnnouncing(pc: Pc, stmt: Stmt, next: Pc, row: Task)
    requires Announcing(pc) && Follows(pc, stmt, true, next) && !next.Idle?
    requires stmt.ReadTask? ==> stmt.found.Some?
    ensures OnTheWay(next, row)
  {}

  lemma StillPassing(pc: Pc, stmt: Stmt, next: Pc, row: Task)
    requires Passing(pc) && row.status.Cancelled? && Follows(pc, stmt, true, next)
    ensures OnTheWay(next, row)
  {}

  /** The holder's own next moves announce the task. */
  lemma {:induction false} IsAnnounced(s: State, w: nat, t: TaskId) returns (actions: seq<Action>, s': State)
    requires Inv(s) && w < |s.workers| && TaskOf(s.workers[w]) == Some(t)
    requires IsCancelled(s, t) && s.db.tasks[t].webhookUrl.Some? && OnTheWay(s.workers[w], s.db.tasks[t])
    ensures Leads(s, actions, s') && AllReadsWork(actions, w, t) && t in s'.db.outbox
    decreases MovesToGo(s.workers[w])
  {
    var a := MoveOf(w, s.workers[w], s.db.tasks[t].status);
    NextMoveWorks(s, w, t);
    assert MovesToGo(s.workers[w]) >= 1;
    hide Inv, Enabled, Step, OnTheWay, MovesToGo, MoveOf;
    s' := Step(s, a);
    actions := [a];
    LeadsOnce(s, a);
    if MovesToGo(s.workers[w]) != 1 {
      var rest;
      rest, s' := IsAnnounced(Step(s, a), w, t);
      actions := [a] + rest;
      LeadsOn(s, [a], Step(s, a), rest, s');
    }
  }

  /** A cancel that lands in the queue is silent at once. */
  lemma QueuedCancelIsSilent(n: nat, s: State, t: TaskId)
    requires Reachable(n, s) && s.phase.Up? && t in s.db.tasks && s.db.tasks[t].status.Queued?
    ensures var a := Request(CancelTask(t));
            Enabled(s, a) && IsCancelled(Step(s, a), t) && Silent(Step(s, a), t)
  {
    ReachableIsSafe(n, s);
    QueuedIsFree(s, t);
    var s' := Step(s, Request(CancelTask(t)));
    assert s'.workers == s.workers;
    hide LocalOk, RowOk;
  }
}
