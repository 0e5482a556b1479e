/** Delivery rows and the dispatcher that works them off: claim, POST, record, with exponential
    backoff, failed statements, crashes and restarts. */
module Webhook {
  import opened Wrappers

  const MAX_ATTEMPTS := 8
  const INITIAL_BACKOFF_SECS := 30
  const MAX_BACKOFF_SECS := 3600

  type DeliveryId = string

  /** `Dead` is the column value 'failed'. */
  datatype DeliveryStatus = Pending | Sending | Retrying | Delivered | Dead

  datatype Delivery = Delivery(status: DeliveryStatus, attempts: nat, nextAt: nat, lastAt: Option<nat>)

  type Rows = map<DeliveryId, Delivery>

  function Pow2(n: nat): nat {
    if n == 0 then 1 else 2 * Pow2(n - 1)
  }

  function Min(a: nat, b: nat): nat {
    if a <= b then a else b
  }

  /** Seconds to wait after counted attempt number `attempt`. */
  function Backoff(attempt: nat): nat
    requires attempt >= 1
  {
    Min(INITIAL_BACKOFF_SECS * Pow2(attempt - 1), MAX_BACKOFF_SECS)
  }

  function NewDelivery(now: nat): Delivery {
    Delivery(Pending, 0, now, None)
  }

  predicate Due(row: Delivery, now: nat) {
    (row.status.Pending? || row.status.Retrying?) && row.nextAt <= now
  }

  /** The row a claim takes: due, and no due row has waited longer. */
  predicate Claimable(rows: Rows, id: DeliveryId, now: nat) {
    id in rows && Due(rows[id], now) &&
    forall other :: other in rows && Due(rows[other], now) ==> rows[id].nextAt <= rows[other].nextAt
  }

  function ClaimedRow(row: Delivery): Delivery {
    row.(status := Sending)
  }

  /** What the dispatcher records after a POST: `handle_retry` unless the answer was a success. */
  function RecordedRow(row: Delivery, attempt: nat, success: bool, now: nat): Delivery
    requires attempt >= 1
  {
    if success then Delivery(Delivered, attempt, row.nextAt, Some(now))
    else if attempt >= MAX_ATTEMPTS then Delivery(Dead, attempt, row.nextAt, Some(now))
    else Delivery(Retrying, attempt, now + Backoff(attempt), Some(now))
  }

  /** Startup recovery on one row. */
  function RecoveredRow(row: Delivery): Delivery {
    if row.status.Sending? then row.(status := Pending) else row
  }

  function Recovered(rows: Rows): Rows {
    map id | id in rows :: RecoveredRow(rows[id])
  }

  // The machine

  datatype Pc = Idle | Claimed(id: DeliveryId, attempt: nat) | Posted(id: DeliveryId, attempt: nat, success: bool)

  /** History of one row: POSTs made, POSTs whose outcome was never recorded, and the times at which
      outcomes were recorded. */
  datatype Log = Log(posts: nat, lost: nat, counted: seq<nat>)

  datatype State = State(
    now: nat, up: bool, rows: Rows, log: map<DeliveryId, Log>, pc: Pc,
    stuck: set<DeliveryId>)  // rows whose recording statement failed since the last start

  datatype Action =
    | Tick | Insert(id: DeliveryId) | Claim(id: DeliveryId) | Post(success: bool) | Record(ok: bool) | Crash | Recover

  predicate Enabled(s: State, a: Action) {
    match a
    case Tick => true
    case Insert(id) => s.up && id !in s.rows && id !in s.log
    case Claim(id) => s.up && s.pc.Idle? && Claimable(s.rows, id, s.now)
    case Post(_) => s.up && s.pc.Claimed?
    case Record(_) => s.up && s.pc.Posted? && s.pc.id in s.rows && s.pc.attempt >= 1
    case Crash => true
    case Recover => !s.up
  }

  function LogOf(s: State, id: DeliveryId): Log {
    if id in s.log then s.log[id] else Log(0, 0, [])
  }

  function WithLost(s: State, id: DeliveryId): map<DeliveryId, Log> {
    var l := LogOf(s, id);
    s.log[id := l.(lost := l.lost + 1)]
  }

  function Step(s: State, a: Action): State
    requires Enabled(s, a)
  {
    match a
    case Tick => s.(now := s.now + 1)
    case Insert(id) => s.(rows := s.rows[id := NewDelivery(s.now)], log := s.log[id := Log(0, 0, [])])
    case Claim(id) =>
      s.(rows := s.rows[id := ClaimedRow(s.rows[id])], pc := Claimed(id, s.rows[id].attempts + 1))
    case Post(success) =>
      var l := LogOf(s, s.pc.id);
      s.(pc := Posted(s.pc.id, s.pc.attempt, success), log := s.log[s.pc.id := l.(posts := l.posts + 1)])
    case Record(ok) =>
      var id := s.pc.id;
      if ok then
        var l := LogOf(s, id);
        s.(rows := s.rows[id := RecordedRow(s.rows[id], s.pc.attempt, s.pc.success, s.now)],
           log := s.log[id := l.(counted := l.counted + [s.now])], pc := Idle)
      else s.(log := WithLost(s, id), pc := Idle, stuck := s.stuck + {id})
    case Crash =>
      s.(up := false, pc := Idle, log := if s.pc.Posted? then WithLost(s, s.pc.id) else s.log)
    case Recover =>
      s.(up := true, rows := Recovered(s.rows), stuck := {})
  }

  const START := State(0, false, map[], map[], Idle, {})

  predicate IsRun(states: seq<State>, actions: seq<Action>) {
    |states| == |actions| + 1 &&
    forall i :: 0 <= i < |actions| ==> Enabled(states[i], actions[i]) && states[i + 1] == Step(states[i], actions[i])
  }

  // Backoff

  /** The doubling stays far below 2^64 and the cap never binds for an attempt that is retried. */
  lemma BackoffExact(attempt: nat)
    requires 1 <= attempt < MAX_ATTEMPTS
    ensures Backoff(attempt) == 30 * Pow2(attempt - 1) <= 1920 < MAX_BACKOFF_SECS
  {
    assert Pow2(1) == 2 && Pow2(2) == 4 && Pow2(3) == 8;
    assert Pow2(4) == 2 * Pow2(3) && Pow2(5) == 2 * Pow2(4) && Pow2(6) == 2 * Pow2(5);
  }

  // The invariant of one row

  ghost predicate Spaced(times: seq<nat>) {
    forall k :: 1 <= k < |times| ==> times[k] >= times[k - 1] + 30 * Pow2(k - 1)
  }

  predicate Open(st: DeliveryStatus) {
    st.Pending? || st.Sending? || st.Retrying?
  }

  predicate AttemptsFit(row: Delivery) {
    match row.status
    case Pending => row.attempts < MAX_ATTEMPTS
    case Sending => row.attempts < MAX_ATTEMPTS
    case Retrying => 1 <= row.attempts < MAX_ATTEMPTS
    case Delivered => 1 <= row.attempts <= MAX_ATTEMPTS
    case Dead => row.attempts == MAX_ATTEMPTS
  }

  ghost predicate RowInv(row: Delivery, l: Log, now: nat, inFlight: nat) {
    && AttemptsFit(row)
    && |l.counted| == row.attempts
    && l.posts == row.attempts + l.lost + inFlight
    && Spaced(l.counted)
    && (forall k :: 0 <= k < |l.counted| ==> l.counted[k] <= now)
    && (Open(row.status) && l.counted != [] ==> row.nextAt >= l.counted[|l.counted| - 1] + Backoff(row.attempts))
    && (row.status.Sending? ==> row.nextAt <= now)
  }

  /** POSTs of `id` made but not yet recorded. */
  function InFlight(s: State, id: DeliveryId): nat {
    if s.pc.Posted? && s.pc.id == id then 1 else 0
  }

  ghost predicate PcInv(s: State) {
    && (!s.pc.Idle? ==>
        s.up && s.pc.id in s.rows && s.rows[s.pc.id].status.Sending? && s.pc.id !in s.stuck &&
        s.pc.attempt == s.rows[s.pc.id].attempts + 1)
  }

  /** Only the dispatcher's current row and rows whose recording failed are in `sending`. */
  ghost predicate SendingInv(s: State) {
    s.up ==>
      (forall id :: id in s.rows && s.rows[id].status.Sending? ==> id in s.stuck || (!s.pc.Idle? && s.pc.id == id)) &&
      (forall id :: id in s.stuck ==> id in s.rows && s.rows[id].status.Sending?)
  }

  ghost predicate Inv(s: State) {
    && s.log.Keys == s.rows.Keys
    && (forall id :: id in s.rows ==> RowInv(s.rows[id], s.log[id], s.now, InFlight(s, id)))
    && PcInv(s)
    && SendingInv(s)
  }

  /** Recording an outcome: the time is late enough after the previous one. */
  lemma RecordKeepsRow(row: Delivery, l: Log, now: nat, success: bool)
    requires RowInv(row, l, now, 1) && row.status.Sending?
    ensures RowInv(RecordedRow(row, row.attempts + 1, success, now), l.(counted := l.counted + [now]), now, 0)
  {
    var times := l.counted + [now];
    var n := |l.counted|;
    if n > 0 {
      BackoffExact(n);
    }
    forall k | 1 <= k < |times|
      ensures times[k] >= times[k - 1] + 30 * Pow2(k - 1)
    {
      if k < n {
        assert times[k] == l.counted[k] && times[k - 1] == l.counted[k - 1];
      }
    }
    assert times[|times| - 1] == now;
  }

  lemma StepKeepsControl(s: State, a: Action)
    requires Inv(s) && Enabled(s, a)
    ensures Step(s, a).log.Keys == Step(s, a).rows.Keys
    ensures PcInv(Step(s, a)) && SendingInv(Step(s, a))
  {
    hide RowInv;
  }

  lemma NewRowInv(now: nat)
    ensures RowInv(NewDelivery(now), Log(0, 0, []), now, 0)
  {}

  lemma RecordKeepsOwnRow(s: State, a: Action)
    requires Inv(s) && Enabled(s, a) && a == Record(true)
    ensures var s', id := Step(s, a), s.pc.id;
            id in s'.rows && id in s'.log && RowInv(s'.rows[id], s'.log[id], s'.now, InFlight(s', id))
  {
    var id := s.pc.id;
    assert RowInv(s.rows[id], s.log[id], s.now, InFlight(s, id));
    RecordKeepsRow(s.rows[id], s.log[id], s.now, s.pc.success);
    hide RowInv;
  }

  lemma LosingKeepsOwnRow(s: State, a: Action)
    requires Inv(s) && Enabled(s, a) && a == Record(false)
    ensures var s', id := Step(s, a), s.pc.id;
            id in s'.rows && id in s'.log && RowInv(s'.rows[id], s'.log[id], s'.now, InFlight(s', id))
  {
    assert RowInv(s.rows[s.pc.id], s.log[s.pc.id], s.now, InFlight(s, s.pc.id));
  }

  lemma RecordKeepsRows(s: State, a: Action, id: DeliveryId)
    requires Inv(s) && Enabled(s, a) && a.Record? && id in s.rows
    ensures var s' := Step(s, a);
            RowInv(s'.rows[id], s'.log[id], s'.now, InFlight(s', id))
  {
    hide RowInv;
    assert RowInv(s.rows[id], s.log[id], s.now, InFlight(s, id));
    if id != s.pc.id {
      assert Step(s, a).rows[id] == s.rows[id] && Step(s, a).log[id] == s.log[id];
    } else if a.ok {
      RecordKeepsOwnRow(s, a);
    } else {
      LosingKeepsOwnRow(s, a);
    }
  }

  lemma RestartKeepsRows(s: State, a: Action, id: DeliveryId)
    requires Inv(s) && Enabled(s, a) && (a.Crash? || a.Recover?) && id in s.rows
    ensures var s' := Step(s, a);
            RowInv(s'.rows[id], s'.log[id], s'.now, InFlight(s', id))
  {
    assert RowInv(s.rows[id], s.log[id], s.now, InFlight(s, id));
  }

  lemma OthersKeepRows(s: State, a: Action, id: DeliveryId)
    requires Inv(s) && Enabled(s, a) && !a.Crash? && !a.Recover? && !a.Record? && id in s.rows
    ensures var s' := Step(s, a);
            RowInv(s'.rows[id], s'.log[id], s'.now, InFlight(s', id))
  {
    assert RowInv(s.rows[id], s.log[id], s.now, InFlight(s, id));
  }

  /** Every action keeps the ledger: claims, POSTs, recordings that fail, crashes, restarts. */
  lemma StepKeepsInv(s: State, a: Action)
    requires Inv(s) && Enabled(s, a)
    ensures Inv(Step(s, a))
  {
    StepKeepsControl(s, a);
    hide RowInv;
    forall id | id in Step(s, a).rows
      ensures RowInv(Step(s, a).rows[id], Step(s, a).log[id], Step(s, a).now, InFlight(Step(s, a), id))
    {
      if id !in s.rows {
        assert RowInv(NewDelivery(s.now), Log(0, 0, []), s.now, 0) by { NewRowInv(s.now); }
      } else if a.Record? {
        RecordKeepsRows(s, a, id);
      } else if a.Crash? || a.Recover? {
        RestartKeepsRows(s, a, id);
      } else {
        OthersKeepRows(s, a, id);
      }
    }
  }

  lemma {:induction false} RunKeepsInv(states: seq<State>, actions: seq<Action>)
    requires IsRun(states, actions) && states[0] == START
    ensures forall i :: 0 <= i < |states| ==> Inv(states[i])
    decreases |actions|
  {
    if actions != [] {
      var k := |actions| - 1;
      RunKeepsInv(states[..k + 1], actions[..k]);
      assert forall i :: 0 <= i <= k ==> states[..k + 1][i] == states[i];
      StepKeepsInv(states[k], actions[k]);
    }
  }

  // What the invariant means

  /** The attempt ledger, in every reachable state: POSTs made are the counted attempts, those whose
      outcome was lost, and the one in flight; at most eight attempts are ever counted. */
  lemma AttemptLedger(states: seq<State>, actions: seq<Action>, i: nat, id: DeliveryId)
    requires IsRun(states, actions) && states[0] == START && i < |states| && id in states[i].rows
    ensures id in states[i].log
    ensures var row, l := states[i].rows[id], states[i].log[id];
            && l.posts == row.attempts + l.lost + InFlight(states[i], id)
            && row.attempts == |l.counted| <= MAX_ATTEMPTS
            && (row.status.Dead? ==> row.attempts == MAX_ATTEMPTS)
            && (row.status.Retrying? ==> 1 <= row.attempts <= MAX_ATTEMPTS - 1)
            && (row.status.Delivered? ==> row.attempts >= 1 && l.posts >= 1)
  {
    RunKeepsInv(states, actions);
    assert Inv(states[i]);
  }

  function SendingRows(s: State): set<DeliveryId> {
    set id | id in s.rows && s.rows[id].status.Sending?
  }

  /** In every reachable state outside startup, a row is being sent exactly if it is the dispatcher's current
      one or its recording failed since the last start. */
  lemma SendingExactly(states: seq<State>, actions: seq<Action>, i: nat, id: DeliveryId)
    requires IsRun(states, actions) && states[0] == START && i < |states|
    requires states[i].up && id in states[i].rows
    ensures states[i].rows[id].status.Sending?
       <==> id in states[i].stuck || (!states[i].pc.Idle? && states[i].pc.id == id)
  {
    RunKeepsInv(states, actions);
    assert Inv(states[i]);
    hide RowInv;
  }

  lemma SendingAre(s: State)
    requires Inv(s) && s.up
    ensures SendingRows(s) == s.stuck + if s.pc.Idle? then {} else {s.pc.id}
    ensures !s.pc.Idle? ==> s.pc.id !in s.stuck
  {
    hide RowInv;
  }

  /** How many rows are in `sending`: the stuck ones and the current one. At most one, if and only if these are
      at most one. */
  lemma SendingCount(states: seq<State>, actions: seq<Action>, i: nat)
    requires IsRun(states, actions) && states[0] == START && i < |states| && states[i].up
    ensures |SendingRows(states[i])| == |states[i].stuck| + if states[i].pc.Idle? then 0 else 1
    ensures (forall a, b :: a in SendingRows(states[i]) && b in SendingRows(states[i]) ==> a == b)
       <==> |states[i].stuck| + (if states[i].pc.Idle? then 0 else 1) <= 1
  {
    RunKeepsInv(states, actions);
    assert Inv(states[i]);
    SendingAre(states[i]);
    hide Inv, SendingRows, IsRun;
    AtMostOne(SendingRows(states[i]));
  }

  lemma AtMostOne(ids: set<DeliveryId>)
    ensures (forall a, b :: a in ids && b in ids ==> a == b) <==> |ids| <= 1
  {
    if ids != {} {
      var x :| x in ids;
      assert ids == {x} + (ids - {x});
      if ids != {x} {
        var y :| y in ids && y != x;
        assert ids == {x, y} + (ids - {x, y});
      }
    }
  }

  const TWO := [Recover, Insert("a"), Insert("b"), Claim("a"), Post(false), Record(false), Claim("b")]

  lemma FirstTwoWait() returns (s: State)
    ensures Enabled(START, TWO[0]) && Enabled(Step(START, TWO[0]), TWO[1])
    ensures Enabled(Step(Step(START, TWO[0]), TWO[1]), TWO[2])
    ensures s == Step(Step(Step(START, TWO[0]), TWO[1]), TWO[2])
    ensures s == State(0, true, map["a" := NewDelivery(0), "b" := NewDelivery(0)],
                       map["a" := Log(0, 0, []), "b" := Log(0, 0, [])], Idle, {})
  {
    var s1 := Step(START, Recover);
    assert s1.rows == map[];
    s := Step(Step(s1, Insert("a")), Insert("b"));
  }

  /** One recording that fails is enough for two rows in `sending`. */
  lemma TwoSending() returns (states: seq<State>)
    ensures IsRun(states, TWO) && states[0] == START && states[7].up
    ensures SendingRows(states[7]) == {"a", "b"}
  {
    var s3 := FirstTwoWait();
    assert Enabled(s3, TWO[3]);
    var s4 := Step(s3, TWO[3]);
    var s5 := Step(s4, TWO[4]);
    assert Enabled(s5, TWO[5]);
    var s6 := Step(s5, TWO[5]);
    assert s6.rows == map["a" := ClaimedRow(NewDelivery(0)), "b" := NewDelivery(0)] && s6.pc.Idle?;
    assert Enabled(s6, TWO[6]);
    var s7 := Step(s6, TWO[6]);
    assert s7.rows == map["a" := ClaimedRow(NewDelivery(0)), "b" := ClaimedRow(NewDelivery(0))];
    assert SendingRows(s7) == {"a", "b"};
    var s1 := Step(START, TWO[0]);
    var s2 := Step(s1, TWO[1]);
    states := [START, s1, s2, s3, s4, s5, s6, s7];
    hide Step, Enabled, SendingRows;
  }

  /** Counted attempts are spaced by the doubling backoff, across crashes and restarts. */
  lemma AttemptsAreSpaced(states: seq<State>, actions: seq<Action>, i: nat, id: DeliveryId, k: nat)
    requires IsRun(states, actions) && states[0] == START && i < |states| && id in states[i].rows
    requires 1 <= k < |LogOf(states[i], id).counted|
    ensures var times := LogOf(states[i], id).counted;
            times[k] >= times[k - 1] + 30 * Pow2(k - 1)
  {
    RunKeepsInv(states, actions);
    assert Inv(states[i]);
  }

  /** A delivery that failed for good was tried for at least 3810 seconds. */
  lemma GivingUpTakesAnHour(states: seq<State>, actions: seq<Action>, i: nat, id: DeliveryId)
    requires IsRun(states, actions) && states[0] == START && i < |states| && id in states[i].rows
    requires states[i].rows[id].status.Dead?
    ensures var times := LogOf(states[i], id).counted;
            |times| == MAX_ATTEMPTS && times[7] >= times[0] + 3810
  {
    RunKeepsInv(states, actions);
    assert Inv(states[i]);
    var times := LogOf(states[i], id).counted;
    assert Spaced(times);
    assert Pow2(0) == 1 && Pow2(1) == 2 && Pow2(2) == 4 && Pow2(3) == 8;
    assert Pow2(4) == 2 * Pow2(3) && Pow2(5) == 2 * Pow2(4) && Pow2(6) == 2 * Pow2(5);
    assert times[1] >= times[0] + 30 && times[2] >= times[1] + 60 && times[3] >= times[2] + 120;
    assert times[4] >= times[3] + 240 && times[5] >= times[4] + 480 && times[6] >= times[5] + 960;
    assert times[7] >= times[6] + 1920;
  }

  /** `delivered` and `failed` absorb: such a row never changes and is never POSTed again. */
  lemma ClosedAbsorbs(s: State, a: Action, id: DeliveryId)
    requires Inv(s) && Enabled(s, a) && id in s.rows && !Open(s.rows[id].status)
    ensures id in Step(s, a).rows && Step(s, a).rows[id] == s.rows[id]
    ensures LogOf(Step(s, a), id) == LogOf(s, id)
  {
    hide RowInv;
  }
}
