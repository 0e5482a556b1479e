/** The dispatcher's statements on the delivery table. */
module Dispatcher {
  import opened Wrappers
  import opened Store
  import opened Webhook

  lemma ClaimableExists(rows: Rows, id: DeliveryId, now: nat)
    requires id in rows && Due(rows[id], now)
    ensures exists other :: other in rows && Claimable(rows, other, now)
  {
    var due := set other | other in rows && Due(rows[other], now);
    assert id in due;
    var next := id => if id in rows then rows[id].nextAt else 0;
    LeastExists(due, next);
    var m :| m in due && forall other :: other in due ==> next(m) <= next(other);
    assert forall other :: other in due ==> next(other) == rows[other].nextAt;
    assert Claimable(rows, m, now);
  }

  /** The row is being sent, one POST is out under the number `attempt`, and `l` is its ledger. */
  ghost predicate Awaited(row: Delivery, attempt: nat, l: Log, now: nat) {
    row.status.Sending? && attempt == row.attempts + 1 && RowInv(row, l, now, 1)
  }

  class Dispatcher {
    const db: Database

    constructor (db: Database)
      ensures this.db == db
    {
      this.db := db;
    }

    /** Claims one due delivery, the longest waiting first, and tells the number of its attempt. */
    method ClaimDue(now: nat) returns (claimed: Option<(DeliveryId, nat)>)
      modifies db`deliveries
      ensures claimed.None? <==> forall id :: id in old(db.deliveries) ==>
                var row := old(db.deliveries)[id];
                (row.status.Pending? || row.status.Retrying?) ==> now < row.nextAt
      ensures claimed.None? ==> db.deliveries == old(db.deliveries)
      ensures claimed.Some? ==>
        var (id, attempt) := claimed.value;
        && id in old(db.deliveries)
        && var row := old(db.deliveries)[id];
        && (row.status.Pending? || row.status.Retrying?) && row.nextAt <= now
        && (forall other :: other in old(db.deliveries) ==>
              var o := old(db.deliveries)[other];
              (o.status.Pending? || o.status.Retrying?) && o.nextAt <= now ==> row.nextAt <= o.nextAt)
        && db.deliveries == old(db.deliveries)[id := row.(status := Sending)]
        && attempt == old(db.deliveries)[id].attempts + 1
    {
      claimed := None;
      if exists id :: id in db.deliveries && Due(db.deliveries[id], now) {
        ghost var some :| some in db.deliveries && Due(db.deliveries[some], now);
        ClaimableExists(db.deliveries, some, now);
        var id :| id in db.deliveries && Claimable(db.deliveries, id, now);
        var row := db.deliveries[id];
        db.deliveries := db.deliveries[id := row.(status := Sending)];
        claimed := Some((id, row.attempts + 1));
      }
    }

    /** The bookkeeping after a POST that the peer answered with success: the row is closed, so it is never due
        again, its attempts are counted once, and no other row is touched. */
    method RecordSuccess(id: DeliveryId, attempt: nat, now: nat)
      requires attempt >= 1 && id in db.deliveries
      modifies db`deliveries
      ensures db.deliveries.Keys == old(db.deliveries).Keys
      ensures forall other :: other in db.deliveries && other != id ==>
                db.deliveries[other] == old(db.deliveries)[other]
      ensures forall later :: !Due(db.deliveries[id], later)
      ensures db.deliveries[id].status.Delivered? && db.deliveries[id].attempts == attempt
      ensures db.deliveries[id].lastAt == Some(now) && db.deliveries[id].nextAt == old(db.deliveries)[id].nextAt
      ensures forall l :: Awaited(old(db.deliveries)[id], attempt, l, now) ==>
                RowInv(db.deliveries[id], l.(counted := l.counted + [now]), now, 0)
      ensures db.deliveries == old(db.deliveries)[id := RecordedRow(old(db.deliveries)[id], attempt, true, now)]
    {
      forall l | Awaited(db.deliveries[id], attempt, l, now)
        ensures RowInv(RecordedRow(db.deliveries[id], attempt, true, now), l.(counted := l.counted + [now]), now, 0)
      {
        RecordKeepsRow(db.deliveries[id], l, now, true);
      }
      hide RowInv;
      var row := db.deliveries[id].(status := Delivered, attempts := attempt, lastAt := Some(now));
      db.deliveries := db.deliveries[id := row];
    }

    /** `handle_retry`: after the eighth attempt the delivery is given up and never due again; until then it is
        due again from the end of its backoff on. */
    method HandleRetry(id: DeliveryId, attempt: nat, now: nat)
      requires attempt >= 1 && id in db.deliveries
      modifies db`deliveries
      ensures db.deliveries == old(db.deliveries)[id := RecordedRow(old(db.deliveries)[id], attempt, false, now)]
      ensures db.deliveries[id].attempts == attempt && db.deliveries[id].lastAt == Some(now)
      ensures attempt >= 8 ==> db.deliveries[id].status.Dead? && forall later :: !Due(db.deliveries[id], later)
      ensures attempt < 8 ==> db.deliveries[id].status.Retrying?
      ensures attempt < 8 ==>
        forall later: nat :: Due(db.deliveries[id], later) <==> later >= now + 30 * Pow2(attempt - 1)
      ensures forall l :: Awaited(old(db.deliveries)[id], attempt, l, now) ==>
                RowInv(db.deliveries[id], l.(counted := l.counted + [now]), now, 0)
    {
      forall l | Awaited(db.deliveries[id], attempt, l, now)
        ensures RowInv(RecordedRow(db.deliveries[id], attempt, false, now), l.(counted := l.counted + [now]), now, 0)
      {
        RecordKeepsRow(db.deliveries[id], l, now, false);
      }
      hide RowInv;
      if attempt < 8 {
        BackoffExact(attempt);
      }
      var row := db.deliveries[id];
      if attempt >= MAX_ATTEMPTS {
        row := row.(status := Dead, attempts := attempt, lastAt := Some(now));
      } else {
        var doubled := INITIAL_BACKOFF_SECS * Pow2(attempt - 1);
        var backoff := if doubled <= MAX_BACKOFF_SECS then doubled else MAX_BACKOFF_SECS;
        row := row.(status := Retrying, attempts := attempt, lastAt := Some(now), nextAt := now + backoff);
      }
      db.deliveries := db.deliveries[id := row];
    }
  }
}
