/** The database object, and the statements that run over a whole table at startup. */
module Store {
  import opened Wrappers
  import opened Tables
  import Gateway
  import Webhook

  class Database {
    var tasks: TaskTable
    var sessions: SessionTable
    var deliveries: Webhook.Rows

    constructor ()
      ensures tasks == map[] && sessions == map[] && deliveries == map[]
    {
      tasks, sessions, deliveries := map[], map[], map[];
    }

    /** `recover_on_startup`: no session counts as active afterwards, of the transient tasks exactly the idle ones
        are queued again, no delivery is left in `sending`, and nothing else changes. */
    method RecoverOnStartup(now: nat)
      modifies this
      ensures NoneActive(old(sessions), sessions)
      ensures IdleAreQueued(old(tasks), tasks, now)
      ensures NoneSending(old(deliveries), deliveries)
      ensures LedgersKept(old(deliveries), deliveries, now)
      ensures sessions == Gateway.SessionsAfter(old(sessions), Gateway.ResetActive, now)
      ensures tasks == Gateway.TasksAfter(old(tasks), Gateway.RequeueStuck, now)
    {
      hide *;
      SessionsReset(sessions, now);
      TasksRequeued(tasks, now);
      DeliveriesRecovered(deliveries, now);
      sessions := map id | id in sessions :: sessions[id].(activeTasks := 0);
      tasks := map t | t in tasks :: RecoveredRow(tasks[t], now);
      deliveries := Webhook.Recovered(deliveries);
    }
  }

  /** The counters are zero and the rest of every session row is as before. */
  ghost predicate NoneActive(before: SessionTable, after: SessionTable) {
    && after.Keys == before.Keys
    && forall id :: id in before ==> after[id].activeTasks == 0 && before[id].(activeTasks := 0) == after[id]
  }

  /** Exactly the tasks in flight and idle for more than ten minutes are in the queue again. */
  ghost predicate IdleAreQueued(before: TaskTable, after: TaskTable, now: nat) {
    && after.Keys == before.Keys
    && forall t :: t in before ==>
         if Transient(before[t].status) && now - before[t].updatedAt > 600
         then after[t] == before[t].(status := Queued, updatedAt := now)
         else after[t] == before[t]
  }

  /** No delivery is in `sending`; one that was is due again from its old next attempt time on. */
  ghost predicate NoneSending(before: Webhook.Rows, after: Webhook.Rows) {
    && after.Keys == before.Keys
    && forall id :: id in before ==>
         && !after[id].status.Sending?
         && after[id].attempts == before[id].attempts
         && (if before[id].status.Sending?
             then forall later :: Webhook.Due(after[id], later) <==> before[id].nextAt <= later
             else after[id] == before[id])
  }

  /** Every ledger that accounts for a row before accounts for it after. */
  ghost predicate LedgersKept(before: Webhook.Rows, after: Webhook.Rows, now: nat) {
    after.Keys == before.Keys &&
    forall id, l :: id in before && Webhook.RowInv(before[id], l, now, 0) ==> Webhook.RowInv(after[id], l, now, 0)
  }

  lemma SessionsReset(ss: SessionTable, now: nat)
    ensures NoneActive(ss, Gateway.SessionsAfter(ss, Gateway.ResetActive, now))
    ensures Gateway.SessionsAfter(ss, Gateway.ResetActive, now) == map id | id in ss :: ss[id].(activeTasks := 0)
  {}

  lemma TasksRequeued(ts: TaskTable, now: nat)
    ensures IdleAreQueued(ts, Gateway.TasksAfter(ts, Gateway.RequeueStuck, now), now)
    ensures Gateway.TasksAfter(ts, Gateway.RequeueStuck, now) == map t | t in ts :: RecoveredRow(ts[t], now)
  {}

  lemma DeliveriesRecovered(ds: Webhook.Rows, now: nat)
    ensures NoneSending(ds, Webhook.Recovered(ds)) && LedgersKept(ds, Webhook.Recovered(ds), now)
  {}

  /** Recovery puts a task back in the queue exactly when it is transient and was idle for more
      than ten minutes; a second recovery right after changes nothing. */
  lemma RecoveryExact(ts: TaskTable, t: TaskId, now: nat)
    requires t in ts && !ts[t].status.Queued?
    ensures var after := Gateway.TasksAfter(ts, Gateway.RequeueStuck, now);
            && after.Keys == ts.Keys
            && (after[t].status.Queued? <==> Transient(ts[t].status) && now - ts[t].updatedAt > 600)
            && (!after[t].status.Queued? ==> after[t] == ts[t])
            && Gateway.TasksAfter(after, Gateway.RequeueStuck, now) == after
  {}
}
