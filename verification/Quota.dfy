/** Daily quotas: requests read today's task count, create a task, and only then record it. Many
    requests of one key run at once, days change under them, reads and writes fail, the process dies. */
module Quota {
  import opened Wrappers

  type KeyId = string
  type RequestId = nat
  type Day = nat

  datatype Usage = Usage(requests: nat, tasks: nat)

  /** `usage_daily`, by its UNIQUE(api_key_id, date). */
  type UsageTable = map<(KeyId, Day), Usage>

  function UsageOf(rows: UsageTable, key: KeyId, day: Day): Usage {
    if (key, day) in rows then rows[(key, day)] else Usage(0, 0)
  }

  function WithTask(rows: UsageTable, key: KeyId, day: Day): UsageTable {
    var u := UsageOf(rows, key, day);
    rows[(key, day) := u.(tasks := u.tasks + 1)]
  }

  /** The row's primary key. */
  function RowId(key: string, date: string): string {
    key + "_" + date
  }

  /** Dates are all ten characters long, so two rows share a primary key only if they share the
      columns that the upsert resolves conflicts on. */
  lemma RowIdsAgree(key: string, date: string, key': string, date': string)
    requires |date| == |date'|
    ensures RowId(key, date) == RowId(key', date') <==> key == key' && date == date'
  {
    var a, b := RowId(key, date), RowId(key', date');
    if a == b {
      assert |key| == |key'|;
      assert key == a[..|key|] && key' == b[..|key'|];
      assert date == a[|key| + 1..] && date' == b[|key'| + 1..];
    }
  }

  class UsageTracker {
    var rows: UsageTable

    constructor ()
      ensures rows == map[]
    {
      rows := map[];
    }

    /** INSERT ... ON CONFLICT DO UPDATE; a failure is ignored. */
    method RecordRequest(key: KeyId, today: Day, works: bool)
      modifies this
      ensures rows.Keys == old(rows).Keys + (if works then {(key, today)} else {})
      ensures forall k, d :: UsageOf(rows, k, d).tasks == UsageOf(old(rows), k, d).tasks
      ensures forall k, d :: UsageOf(rows, k, d).requests
                == UsageOf(old(rows), k, d).requests + (if works && k == key && d == today then 1 else 0)
    {
      if works {
        if (key, today) in rows {
          rows := rows[(key, today) := rows[(key, today)].(requests := rows[(key, today)].requests + 1)];
        } else {
          rows := rows[(key, today) := Usage(1, 0)];
        }
      }
    }

    method RecordTask(key: KeyId, today: Day, works: bool)
      modifies this
      ensures rows == if works then WithTask(old(rows), key, today) else old(rows)
      ensures forall k, d :: UsageOf(rows, k, d).requests == UsageOf(old(rows), k, d).requests
    {
      if works {
        if (key, today) in rows {
          rows := rows[(key, today) := rows[(key, today)].(tasks := rows[(key, today)].tasks + 1)];
        } else {
          rows := rows[(key, today) := Usage(0, 1)];
        }
      }
    }

    /** The handlers read a failure as zero. */
    method TodayTaskCount(key: KeyId, today: Day, works: bool) returns (count: nat)
      ensures count == if works then UsageOf(rows, key, today).tasks else 0
    {
      if works && (key, today) in rows {
        count := rows[(key, today)].tasks;
      } else {
        count := 0;
      }
    }
  }

  // The machine

  /** What became of a task since its row was committed. */
  datatype Fate = Open | Recorded(day: Day) | Failed | Lost

  /** One task: the key that paid for it, the day it was created, and whether its check could read the count. */
  datatype Creation = Creation(key: KeyId, created: Day, sighted: bool, fate: Fate)

  /** A request that passed the check. It is `sighted` if its read worked; once its task is created, `task` is
      the place of the task in the log. */
  datatype Request = Request(key: KeyId, sighted: bool, task: Option<nat>)

  datatype State = State(today: Day, rows: UsageTable, pending: map<RequestId, Request>, log: seq<Creation>)

  /** A handler can end early at any time, as when its client hangs up; a crash ends all of them. */
  datatype Action =
    | Check(id: RequestId, key: KeyId, quota: int, admin: bool, readWorks: bool)
    | Create(id: RequestId)
    | Abort(id: RequestId)
    | Record(id: RequestId, works: bool)
    | Midnight
    | Crash

  const START := State(0, map[], map[], [])

  predicate Enabled(s: State, a: Action) {
    match a
    case Check(id, _, _, _, _) => id !in s.pending
    case Create(id) => id in s.pending && s.pending[id].task.None?
    case Abort(id) => id in s.pending
    case Record(id, _) => id in s.pending && s.pending[id].task.Some?
    case Midnight => true
    case Crash => true
  }

  /** A key with admin scope, or without a quota, is not checked. */
  predicate Passes(s: State, key: KeyId, quota: int, admin: bool, readWorks: bool) {
    admin || quota <= 0 || (if readWorks then UsageOf(s.rows, key, s.today).tasks else 0) < quota
  }

  function WithFate(log: seq<Creation>, task: Option<nat>, fate: Fate): seq<Creation> {
    if task.Some? && task.value < |log| then log[task.value := log[task.value].(fate := fate)] else log
  }

  function LostIfOpen(c: Creation): Creation {
    if c.fate.Open? then c.(fate := Lost) else c
  }

  function AllLost(log: seq<Creation>): seq<Creation> {
    seq(|log|, i requires 0 <= i < |log| => LostIfOpen(log[i]))
  }

  function Step(s: State, a: Action): State
    requires Enabled(s, a)
  {
    match a
    case Check(id, key, quota, admin, readWorks) =>
      if Passes(s, key, quota, admin, readWorks) then s.(pending := s.pending[id := Request(key, readWorks, None)])
      else s
    case Create(id) =>
      var r := s.pending[id];
      s.(pending := s.pending[id := r.(task := Some(|s.log|))],
         log := s.log + [Creation(r.key, s.today, r.sighted, Open)])
    case Abort(id) => s.(pending := s.pending - {id}, log := WithFate(s.log, s.pending[id].task, Lost))
    case Record(id, works) =>
      var r := s.pending[id];
      s.(rows := if works then WithTask(s.rows, r.key, s.today) else s.rows, pending := s.pending - {id},
         log := WithFate(s.log, r.task, if works then Recorded(s.today) else Failed))
    case Midnight => s.(today := s.today + 1)
    case Crash => s.(pending := map[], log := AllLost(s.log))
  }

  /** Who is turned away: a caller without admin scope and with a quota, whose count could be read and has reached
      it. Everyone else may create a task. */
  lemma TurnedAwayExactly(s: State, a: Action)
    requires Enabled(s, a) && a.Check?
    ensures Step(s, a) == s <==>
              (!a.admin && a.quota > 0 && a.readWorks
               && (a.key, s.today) in s.rows && s.rows[(a.key, s.today)].tasks >= a.quota)
    ensures Step(s, a) != s ==> Step(s, a) == s.(pending := s.pending[a.id := Request(a.key, a.readWorks, None)])
  {}

  predicate IsRun(s: State, actions: seq<Action>)
    decreases |actions|
  {
    actions != [] ==> Enabled(s, actions[0]) && IsRun(Step(s, actions[0]), actions[1..])
  }

  function After(s: State, actions: seq<Action>): State
    requires IsRun(s, actions)
    decreases |actions|
  {
    if actions == [] then s else After(Step(s, actions[0]), actions[1..])
  }

  // Counting

  function Requests(s: State, key: KeyId): set<RequestId> {
    set id | id in s.pending && s.pending[id].key == key
  }

  function Sighted(s: State, key: KeyId): set<RequestId> {
    set id | id in s.pending && s.pending[id].key == key && s.pending[id].sighted
  }

  /** Where in the log the tasks of one kind are. */
  function Places(log: seq<Creation>, kind: Creation -> bool): set<nat> {
    set i: nat | i < |log| && kind(log[i])
  }

  function Count(log: seq<Creation>, kind: Creation -> bool): nat {
    |Places(log, kind)|
  }

  /** Counted on `day`, by checks that could read the count or by those that could not. */
  function RecordedOn(key: KeyId, day: Day, sighted: bool): Creation -> bool {
    (c: Creation) => c.key == key && c.sighted == sighted && c.fate == Recorded(day)
  }

  function CreatedOn(key: KeyId, day: Day, sighted: bool): Creation -> bool {
    (c: Creation) => c.key == key && c.sighted == sighted && c.created == day
  }

  /** Created on `day` after a check that could read the count, but never counted: the recording failed, or the
      process or the request died before it. */
  function UnrecordedOf(key: KeyId, day: Day): Creation -> bool {
    (c: Creation) => c.key == key && c.sighted && c.created == day && (c.fate.Failed? || c.fate.Lost?)
  }

  /** Tasks of `key` created on `day`, and what is in the way of counting them. */
  function Created(s: State, key: KeyId, day: Day): nat {
    Count(s.log, CreatedOn(key, day, true)) + Count(s.log, CreatedOn(key, day, false))
  }

  function CreatedBlind(s: State, key: KeyId, day: Day): nat {
    Count(s.log, CreatedOn(key, day, false))
  }

  function Unrecorded(s: State, key: KeyId, day: Day): nat {
    Count(s.log, UnrecordedOf(key, day))
  }

  function One(b: bool): nat {
    if b then 1 else 0
  }

  lemma CountAppend(log: seq<Creation>, c: Creation, kind: Creation -> bool)
    ensures Count(log + [c], kind) == Count(log, kind) + One(kind(c))
  {
    var more := if kind(c) then {|log|} else {};
    assert Places(log + [c], kind) == Places(log, kind) + more;
  }

  lemma CountUpdate(log: seq<Creation>, i: nat, c: Creation, kind: Creation -> bool)
    requires i < |log|
    ensures Count(log[i := c], kind) == Count(log, kind) - One(kind(log[i])) + One(kind(c))
  {
    var others := Places(log, kind) - {i};
    assert Places(log, kind) == if kind(log[i]) then others + {i} else others;
    assert Places(log[i := c], kind) == if kind(c) then others + {i} else others;
  }

  /** At most `busy` requests of `key` are ever between check and record. */
  predicate Busy(s: State, actions: seq<Action>, key: KeyId, busy: nat)
    requires IsRun(s, actions)
    decreases |actions|
  {
    |Requests(s, key)| <= busy && (actions != [] ==> Busy(Step(s, actions[0]), actions[1..], key, busy))
  }

  /** Every request of `key` is checked against a quota between 1 and `quota`. */
  predicate Limited(actions: seq<Action>, key: KeyId, quota: nat) {
    forall i :: 0 <= i < |actions| && actions[i].Check? && actions[i].key == key ==>
      !actions[i].admin && 1 <= actions[i].quota <= quota
  }

  // The log

  /** The task of a waiting request is open in the log, and no two requests share one. */
  ghost predicate TasksOpen(s: State) {
    && (forall id :: id in s.pending && s.pending[id].task.Some? ==>
          var r := s.pending[id];
          r.task.value < |s.log| &&
          var c := s.log[r.task.value];
          c.key == r.key && c.sighted == r.sighted && c.fate.Open?)
    && (forall id, other :: id in s.pending && other in s.pending && id != other && s.pending[id].task.Some? ==>
          s.pending[id].task != s.pending[other].task)
  }

  /** Nothing in the log is from the future. */
  ghost predicate Dated(s: State) {
    forall i :: 0 <= i < |s.log| ==>
      s.log[i].created <= s.today && (s.log[i].fate.Recorded? ==> s.log[i].fate.day <= s.today)
  }

  /** Every count in the table is the number of tasks recorded for that key and day. */
  ghost predicate Counted(s: State) {
    forall key, day :: UsageOf(s.rows, key, day).tasks
      == Count(s.log, RecordedOn(key, day, true)) + Count(s.log, RecordedOn(key, day, false))
  }

  ghost predicate Logged(s: State) {
    TasksOpen(s) && Dated(s) && Counted(s)
  }

  lemma StepKeepsTasksOpen(s: State, a: Action)
    requires TasksOpen(s) && Dated(s) && Enabled(s, a)
    ensures TasksOpen(Step(s, a)) && Dated(Step(s, a))
  {}

  /** The step that a request's task takes in the log. */
  function NewFate(s: State, a: Action): Fate
    requires Enabled(s, a) && (a.Record? || a.Abort?)
  {
    if a.Record? && a.works then Recorded(s.today) else if a.Record? then Failed else Lost
  }

  /** What a recording or an abort does to the number of tasks of one kind. */
  lemma CountCloses(s: State, a: Action, kind: Creation -> bool)
    requires TasksOpen(s) && Enabled(s, a) && (a.Record? || a.Abort?)
    ensures var task := s.pending[a.id].task;
            if task.None? then Step(s, a).log == s.log
            else Count(Step(s, a).log, kind)
                 == Count(s.log, kind) - One(kind(s.log[task.value]))
                    + One(kind(s.log[task.value].(fate := NewFate(s, a))))
  {
    var task := s.pending[a.id].task;
    if task.Some? {
      CountUpdate(s.log, task.value, s.log[task.value].(fate := NewFate(s, a)), kind);
    }
  }

  lemma ClosingKeepsCounted(s: State, a: Action, key: KeyId, day: Day)
    requires Logged(s) && Enabled(s, a) && (a.Record? || a.Abort?)
    ensures UsageOf(Step(s, a).rows, key, day).tasks
         == Count(Step(s, a).log, RecordedOn(key, day, true)) + Count(Step(s, a).log, RecordedOn(key, day, false))
  {
    hide Count, Dated;
    CountCloses(s, a, RecordedOn(key, day, true));
    CountCloses(s, a, RecordedOn(key, day, false));
    assert UsageOf(s.rows, key, day).tasks
        == Count(s.log, RecordedOn(key, day, true)) + Count(s.log, RecordedOn(key, day, false));
    hide Counted;
  }

  lemma CrashKeepsRecorded(log: seq<Creation>, key: KeyId, day: Day, sighted: bool)
    ensures Count(AllLost(log), RecordedOn(key, day, sighted)) == Count(log, RecordedOn(key, day, sighted))
    ensures Count(AllLost(log), CreatedOn(key, day, sighted)) == Count(log, CreatedOn(key, day, sighted))
  {
    assert Places(AllLost(log), RecordedOn(key, day, sighted)) == Places(log, RecordedOn(key, day, sighted));
    assert Places(AllLost(log), CreatedOn(key, day, sighted)) == Places(log, CreatedOn(key, day, sighted));
  }

  lemma StepKeepsCounted(s: State, a: Action)
    requires Logged(s) && Enabled(s, a)
    ensures Counted(Step(s, a))
  {
    var s' := Step(s, a);
    hide Count, TasksOpen, Dated, AllLost;
    forall key: KeyId, day: Day
      ensures UsageOf(s'.rows, key, day).tasks
           == Count(s'.log, RecordedOn(key, day, true)) + Count(s'.log, RecordedOn(key, day, false))
    {
      assert UsageOf(s.rows, key, day).tasks
          == Count(s.log, RecordedOn(key, day, true)) + Count(s.log, RecordedOn(key, day, false));
      match a
      case Create(id) =>
        var c := Creation(s.pending[id].key, s.today, s.pending[id].sighted, Open);
        CountAppend(s.log, c, RecordedOn(key, day, true));
        CountAppend(s.log, c, RecordedOn(key, day, false));
      case Record(_, _) => ClosingKeepsCounted(s, a, key, day);
      case Abort(_) => ClosingKeepsCounted(s, a, key, day);
      case Crash =>
        CrashKeepsRecorded(s.log, key, day, true);
        CrashKeepsRecorded(s.log, key, day, false);
      case _ =>
    }
  }

  lemma StepKeepsLogged(s: State, a: Action)
    requires Logged(s) && Enabled(s, a)
    ensures Logged(Step(s, a))
  {
    StepKeepsTasksOpen(s, a);
    StepKeepsCounted(s, a);
    hide TasksOpen, Dated, Counted, Step, Enabled;
  }

  lemma {:induction false} RunKeepsLogged(s: State, actions: seq<Action>)
    requires Logged(s) && IsRun(s, actions)
    ensures Logged(After(s, actions))
    decreases |actions|
  {
    hide Logged;
    if actions != [] {
      StepKeepsLogged(s, actions[0]);
      RunKeepsLogged(Step(s, actions[0]), actions[1..]);
    }
  }

  lemma StartIsLogged()
    ensures Logged(START)
  {}

  /** No increment is lost to a race: every key's count for every day is the number of its tasks whose
      recording took effect on that day. */
  lemma UpsertsLoseNothing(actions: seq<Action>, key: KeyId, day: Day)
    requires IsRun(START, actions)
    ensures var s := After(START, actions);
            UsageOf(s.rows, key, day).tasks
            == Count(s.log, RecordedOn(key, day, true)) + Count(s.log, RecordedOn(key, day, false))
  {
    StartIsLogged();
    RunKeepsLogged(START, actions);
    hide Count, TasksOpen, Dated, Step, Enabled;
  }

  // Overshoot

  /** The sighted requests whose task was created today. */
  function Fresh(s: State, key: KeyId): set<RequestId> {
    set id | id in Sighted(s, key) && s.pending[id].task.Some?
      && s.pending[id].task.value < |s.log| && s.log[s.pending[id].task.value].created == s.today
  }

  function Seen(s: State, key: KeyId, day: Day): nat {
    Count(s.log, RecordedOn(key, day, true))
  }

  function CreatedSeen(s: State, key: KeyId, day: Day): nat {
    Count(s.log, CreatedOn(key, day, true))
  }

  /** Today's count and the sighted requests that may still add to it; and what was created each day. */
  ghost predicate Bounded(s: State, key: KeyId, quota: nat, busy: nat) {
    && Seen(s, key, s.today) + |Sighted(s, key)| <= quota + busy - 1
    && CreatedSeen(s, key, s.today) <= Seen(s, key, s.today) + |Fresh(s, key)| + Unrecorded(s, key, s.today)
    && PastBounded(s, key, quota, busy)
  }

  ghost predicate PastBounded(s: State, key: KeyId, quota: nat, busy: nat) {
    forall day :: day != s.today ==>
      Seen(s, key, day) <= quota + busy - 1 && CreatedSeen(s, key, day) <= quota + busy - 1 + Unrecorded(s, key, day)
  }

  lemma {:induction false} Smaller<T>(a: set<T>, b: set<T>)
    requires a <= b
    ensures |a| <= |b|
  {
    if a != {} {
      var x :| x in a;
      Smaller(a - {x}, b - {x});
    }
  }

  lemma FreshAreSighted(s: State, key: KeyId)
    ensures |Fresh(s, key)| <= |Sighted(s, key)| <= |Requests(s, key)|
  {
    Smaller(Fresh(s, key), Sighted(s, key));
    Smaller(Sighted(s, key), Requests(s, key));
  }

  lemma SeenAreCounted(s: State, key: KeyId)
    requires Counted(s)
    ensures Seen(s, key, s.today) <= UsageOf(s.rows, key, s.today).tasks
  {
    hide Count;
  }

  lemma CheckPasses(s: State, a: Action)
    requires Enabled(s, a) && a.Check? && Step(s, a) != s
    ensures Step(s, a).log == s.log && Step(s, a).today == s.today
    ensures !a.admin && a.quota > 0 && a.readWorks ==> UsageOf(s.rows, a.key, s.today).tasks < a.quota
  {}

  lemma CheckedRequests(s: State, a: Action, key: KeyId)
    requires Enabled(s, a) && a.Check? && Step(s, a) != s
    ensures Fresh(Step(s, a), key) == Fresh(s, key)
    ensures a.key != key || !a.readWorks ==> Sighted(Step(s, a), key) == Sighted(s, key)
  {
    assert Fresh(Step(s, a), key) == Fresh(s, key);
    assert a.key != key || !a.readWorks ==> Sighted(Step(s, a), key) == Sighted(s, key);
  }

  lemma CheckKeepsBounded(s: State, a: Action, key: KeyId, quota: nat, busy: nat)
    requires Logged(s) && Enabled(s, a) && a.Check? && quota >= 1
    requires Bounded(s, key, quota, busy) && |Requests(Step(s, a), key)| <= busy
    requires a.key == key ==> !a.admin && 1 <= a.quota <= quota
    ensures Bounded(Step(s, a), key, quota, busy)
  {
    var s' := Step(s, a);
    if s' != s {
      CheckedRequests(s, a, key);
      FreshAreSighted(s', key);
      SeenAreCounted(s, key);
      CheckPasses(s, a);
      hide Step, Enabled, Sighted, Fresh, Requests, Count, TasksOpen, Dated, Counted, UsageOf, Passes;
      assert forall day :: Seen(s', key, day) == Seen(s, key, day)
                           && CreatedSeen(s', key, day) == CreatedSeen(s, key, day)
                           && Unrecorded(s', key, day) == Unrecorded(s, key, day);
    }
  }

  lemma CreatedRequests(s: State, a: Action, key: KeyId)
    requires TasksOpen(s) && Enabled(s, a) && a.Create?
    ensures Step(s, a).today == s.today && Sighted(Step(s, a), key) == Sighted(s, key)
    ensures |Fresh(Step(s, a), key)| == |Fresh(s, key)| + One(s.pending[a.id].key == key && s.pending[a.id].sighted)
  {
    var r := s.pending[a.id];
    assert Sighted(Step(s, a), key) == Sighted(s, key);
    assert Fresh(Step(s, a), key) == if r.key == key && r.sighted then Fresh(s, key) + {a.id} else Fresh(s, key);
  }

  lemma CreatedCounts(s: State, a: Action, key: KeyId, day: Day)
    requires Enabled(s, a) && a.Create?
    ensures Seen(Step(s, a), key, day) == Seen(s, key, day)
    ensures Unrecorded(Step(s, a), key, day) == Unrecorded(s, key, day)
    ensures CreatedSeen(Step(s, a), key, day) == CreatedSeen(s, key, day)
              + One(s.pending[a.id].key == key && s.pending[a.id].sighted && day == s.today)
  {
    hide Count;
    var c := Creation(s.pending[a.id].key, s.today, s.pending[a.id].sighted, Open);
    CountAppend(s.log, c, RecordedOn(key, day, true));
    CountAppend(s.log, c, UnrecordedOf(key, day));
    CountAppend(s.log, c, CreatedOn(key, day, true));
  }

  lemma CreateKeepsBounded(s: State, a: Action, key: KeyId, quota: nat, busy: nat)
    requires Logged(s) && Enabled(s, a) && a.Create? && Bounded(s, key, quota, busy)
    ensures Bounded(Step(s, a), key, quota, busy)
  {
    var s' := Step(s, a);
    CreatedRequests(s, a, key);
    CreatedCounts(s, a, key, s.today);
    hide Step, Enabled, Sighted, Fresh, Seen, CreatedSeen, Unrecorded, TasksOpen, Dated, Counted;
    forall day | day != s.today
      ensures Seen(s', key, day) <= quota + busy - 1
      ensures CreatedSeen(s', key, day) <= quota + busy - 1 + Unrecorded(s', key, day)
    {
      CreatedCounts(s, a, key, day);
    }
  }

  /** The request that ends is sighted, of this key; its task was created on `day`. */
  predicate Ends(s: State, id: RequestId, key: KeyId)
    requires id in s.pending
  {
    s.pending[id].key == key && s.pending[id].sighted
  }

  predicate EndsOf(s: State, id: RequestId, key: KeyId, day: Day)
    requires id in s.pending
  {
    && Ends(s, id, key) && s.pending[id].task.Some? && s.pending[id].task.value < |s.log|
    && s.log[s.pending[id].task.value].created == day
  }

  lemma EndedCounts(s: State, a: Action, key: KeyId, day: Day)
    requires TasksOpen(s) && Enabled(s, a) && (a.Record? || a.Abort?)
    ensures Seen(Step(s, a), key, day)
         == Seen(s, key, day) + One(Ends(s, a.id, key) && a.Record? && a.works && day == s.today)
    ensures CreatedSeen(Step(s, a), key, day) == CreatedSeen(s, key, day)
    ensures Unrecorded(Step(s, a), key, day)
         == Unrecorded(s, key, day) + One(EndsOf(s, a.id, key, day) && !(a.Record? && a.works))
  {
    hide Count;
    CountCloses(s, a, RecordedOn(key, day, true));
    CountCloses(s, a, CreatedOn(key, day, true));
    CountCloses(s, a, UnrecordedOf(key, day));
  }

  lemma WithoutOne(ids: set<RequestId>, id: RequestId)
    ensures |ids - {id}| == |ids| - One(id in ids)
  {
    if id !in ids {
      assert ids - {id} == ids;
    }
  }

  lemma EndedLeaves(s: State, a: Action, key: KeyId)
    requires TasksOpen(s) && Enabled(s, a) && (a.Record? || a.Abort?)
    ensures Sighted(Step(s, a), key) == Sighted(s, key) - {a.id}
    ensures Fresh(Step(s, a), key) == Fresh(s, key) - {a.id}
  {}

  lemma EndedRequests(s: State, a: Action, key: KeyId)
    requires TasksOpen(s) && Enabled(s, a) && (a.Record? || a.Abort?)
    ensures |Sighted(Step(s, a), key)| == |Sighted(s, key)| - One(Ends(s, a.id, key))
    ensures |Fresh(Step(s, a), key)| == |Fresh(s, key)| - One(EndsOf(s, a.id, key, s.today))
  {
    EndedLeaves(s, a, key);
    assert a.id in Sighted(s, key) <==> Ends(s, a.id, key);
    assert a.id in Fresh(s, key) <==> EndsOf(s, a.id, key, s.today);
    hide Step, Enabled, TasksOpen, Sighted, Fresh;
    WithoutOne(Sighted(s, key), a.id);
    WithoutOne(Fresh(s, key), a.id);
  }

  lemma EndKeepsDay(s: State, a: Action)
    requires Enabled(s, a) && (a.Record? || a.Abort?)
    ensures Step(s, a).today == s.today && a.id in s.pending
  {}

  lemma EndKeepsToday(s: State, a: Action, key: KeyId, quota: nat, busy: nat)
    requires Logged(s) && Enabled(s, a) && (a.Record? || a.Abort?) && Bounded(s, key, quota, busy)
    ensures var s' := Step(s, a);
            && Seen(s', key, s.today) + |Sighted(s', key)| <= quota + busy - 1
            && CreatedSeen(s', key, s.today) <= Seen(s', key, s.today) + |Fresh(s', key)| + Unrecorded(s', key, s.today)
  {
    EndKeepsDay(s, a);
    assert EndsOf(s, a.id, key, s.today) ==> Ends(s, a.id, key);
    hide Seen, CreatedSeen, Unrecorded, Sighted, Fresh, Step, Enabled, TasksOpen, Dated, Counted, Ends, EndsOf;
    hide PastBounded;
    EndedRequests(s, a, key);
    EndedCounts(s, a, key, s.today);
  }

  lemma EndKeepsBounded(s: State, a: Action, key: KeyId, quota: nat, busy: nat)
    requires Logged(s) && Enabled(s, a) && (a.Record? || a.Abort?) && Bounded(s, key, quota, busy)
    ensures Bounded(Step(s, a), key, quota, busy)
  {
    EndKeepsToday(s, a, key, quota, busy);
    EndKeepsDay(s, a);
    hide Seen, CreatedSeen, Unrecorded, Sighted, Fresh, Step, Enabled, TasksOpen, Dated, Counted, Ends, EndsOf;
    var s' := Step(s, a);
    forall day | day != s.today
      ensures Seen(s', key, day) <= quota + busy - 1
      ensures CreatedSeen(s', key, day) <= quota + busy - 1 + Unrecorded(s', key, day)
    {
      EndedCounts(s, a, key, day);
    }
  }

  lemma NothingTomorrow(s: State, key: KeyId)
    requires Dated(s)
    ensures Seen(s, key, s.today + 1) == 0 && CreatedSeen(s, key, s.today + 1) == 0
  {
    assert Places(s.log, RecordedOn(key, s.today + 1, true)) == {};
    assert Places(s.log, CreatedOn(key, s.today + 1, true)) == {};
  }

  lemma MidnightKeepsBounded(s: State, key: KeyId, quota: nat, busy: nat)
    requires Logged(s) && Bounded(s, key, quota, busy) && |Requests(s, key)| <= busy && quota >= 1
    ensures Bounded(Step(s, Midnight), key, quota, busy)
  {
    var s' := Step(s, Midnight);
    NothingTomorrow(s, key);
    FreshAreSighted(s, key);
    assert Sighted(s', key) == Sighted(s, key) && s'.today == s.today + 1 && s'.log == s.log;
    hide Step, Enabled, Sighted, Fresh, Count, Requests, TasksOpen, Dated, Counted;
    assert forall day :: Seen(s', key, day) == Seen(s, key, day)
                         && CreatedSeen(s', key, day) == CreatedSeen(s, key, day)
                         && Unrecorded(s', key, day) == Unrecorded(s, key, day);
  }

  /** The places in the log of the tasks of these requests. */
  function TasksOf(s: State, ids: set<RequestId>): set<nat> {
    set id | id in ids && id in s.pending && s.pending[id].task.Some? :: s.pending[id].task.value
  }

  lemma {:induction false} TasksAreDistinct(s: State, ids: set<RequestId>)
    requires TasksOpen(s) && forall id :: id in ids ==> id in s.pending && s.pending[id].task.Some?
    ensures |TasksOf(s, ids)| == |ids|
  {
    if ids == {} {
      assert TasksOf(s, ids) == {};
    } else {
      var id :| id in ids;
      TasksAreDistinct(s, ids - {id});
      var task := s.pending[id].task.value;
      assert TasksOf(s, ids) == TasksOf(s, ids - {id}) + {task};
      assert task !in TasksOf(s, ids - {id});
    }
  }

  /** Those still waiting for their recording are lost, at least as many as there are requests. */
  lemma CrashLoses(s: State, key: KeyId)
    requires TasksOpen(s)
    ensures Unrecorded(Step(s, Crash), key, s.today) >= Unrecorded(s, key, s.today) + |Fresh(s, key)|
  {
    var waiting := TasksOf(s, Fresh(s, key));
    var before, after := Places(s.log, UnrecordedOf(key, s.today)), Places(AllLost(s.log), UnrecordedOf(key, s.today));
    TasksAreDistinct(s, Fresh(s, key));
    FreshBecomeLost(s, key);
    hide TasksOf, Fresh, Places, TasksOpen, AllLost;
    Smaller(waiting + before, after);
  }

  lemma FreshBecomeLost(s: State, key: KeyId)
    requires TasksOpen(s)
    ensures forall id :: id in Fresh(s, key) ==> id in s.pending && s.pending[id].task.Some?
    ensures TasksOf(s, Fresh(s, key)) !! Places(s.log, UnrecordedOf(key, s.today))
    ensures TasksOf(s, Fresh(s, key)) + Places(s.log, UnrecordedOf(key, s.today))
         <= Places(AllLost(s.log), UnrecordedOf(key, s.today))
  {}

  lemma CrashKeepsUnrecorded(s: State, key: KeyId, day: Day)
    ensures Unrecorded(Step(s, Crash), key, day) >= Unrecorded(s, key, day)
  {
    Smaller(Places(s.log, UnrecordedOf(key, day)), Places(AllLost(s.log), UnrecordedOf(key, day)));
  }

  lemma CrashKeepsBounded(s: State, key: KeyId, quota: nat, busy: nat)
    requires Logged(s) && Bounded(s, key, quota, busy)
    ensures Bounded(Step(s, Crash), key, quota, busy)
  {
    var s' := Step(s, Crash);
    hide Count, TasksOpen, Dated, Counted, AllLost;
    CrashLoses(s, key);
    assert Sighted(s', key) == {} && Fresh(s', key) == {};
    hide Sighted, Fresh;
    CrashKeepsRecorded(s.log, key, s.today, true);
    forall day: Day
      ensures Seen(s', key, day) == Seen(s, key, day) && CreatedSeen(s', key, day) == CreatedSeen(s, key, day)
      ensures Unrecorded(s', key, day) >= Unrecorded(s, key, day)
    {
      CrashKeepsRecorded(s.log, key, day, true);
      CrashKeepsUnrecorded(s, key, day);
    }
  }

  lemma StepKeepsBounded(s: State, a: Action, key: KeyId, quota: nat, busy: nat)
    requires Logged(s) && Enabled(s, a) && quota >= 1
    requires Bounded(s, key, quota, busy) && |Requests(s, key)| <= busy && |Requests(Step(s, a), key)| <= busy
    requires a.Check? && a.key == key ==> !a.admin && 1 <= a.quota <= quota
    ensures Bounded(Step(s, a), key, quota, busy)
  {
    hide Logged, Bounded, Step, Requests;
    match a
    case Check(_, _, _, _, _) => CheckKeepsBounded(s, a, key, quota, busy);
    case Create(_) => CreateKeepsBounded(s, a, key, quota, busy);
    case Abort(_) => EndKeepsBounded(s, a, key, quota, busy);
    case Record(_, _) => EndKeepsBounded(s, a, key, quota, busy);
    case Midnight => MidnightKeepsBounded(s, key, quota, busy);
    case Crash => CrashKeepsBounded(s, key, quota, busy);
  }

  lemma {:induction false} RunKeepsBounded(s: State, actions: seq<Action>, key: KeyId, quota: nat, busy: nat)
    requires IsRun(s, actions) && Busy(s, actions, key, busy) && Limited(actions, key, quota) && quota >= 1
    requires Logged(s) && Bounded(s, key, quota, busy)
    ensures Bounded(After(s, actions), key, quota, busy)
    decreases |actions|
  {
    hide Bounded, Logged;
    if actions != [] {
      var s' := Step(s, actions[0]);
      assert |Requests(s', key)| <= busy;
      StepKeepsLogged(s, actions[0]);
      StepKeepsBounded(s, actions[0], key, quota, busy);
      RunKeepsBounded(s', actions[1..], key, quota, busy);
    }
  }

  lemma StartIsBounded(key: KeyId, quota: nat, busy: nat)
    requires quota >= 1 && busy >= 1
    ensures Bounded(START, key, quota, busy)
  {
    assert Sighted(START, key) == {} && Fresh(START, key) == {};
    assert forall kind :: Places(START.log, kind) == {};
  }

  /** With at most K of its requests between check and record, a key with quota Q has at most Q + K - 1 tasks
      counted on any day, and one more for each check that could not read the count. It has at most that many
      created on any day and one more for each task that was never counted: its recording failed, or the
      request or the process died before it. A task created before midnight and recorded after it counts for
      the new day. */
  lemma OvershootBound(actions: seq<Action>, key: KeyId, quota: nat, busy: nat, day: Day)
    requires quota >= 1 && busy >= 1
    requires IsRun(START, actions) && Busy(START, actions, key, busy) && Limited(actions, key, quota)
    ensures var s := After(START, actions);
            && UsageOf(s.rows, key, day).tasks <= quota + busy - 1 + Count(s.log, RecordedOn(key, day, false))
            && Created(s, key, day) <= quota + busy - 1 + CreatedBlind(s, key, day) + Unrecorded(s, key, day)
  {
    hide Count, Step, Enabled, Logged, Sighted;
    StartIsLogged();
    StartIsBounded(key, quota, busy);
    RunKeepsBounded(START, actions, key, quota, busy);
    UpsertsLoseNothing(actions, key, day);
    var s := After(START, actions);
    FreshAreSighted(s, key);
    hide Fresh, After, Busy, Limited, IsRun;
    assert Seen(s, key, day) <= quota + busy - 1;
  }

  /** Created on one day, counted on the next. */
  lemma MidnightMovesTheCount(key: KeyId)
    ensures var actions := [Check(0, key, 1, false, true), Create(0), Midnight, Record(0, true)];
            IsRun(START, actions) &&
            var s := After(START, actions);
            && s.log == [Creation(key, 0, true, Recorded(1))]
            && UsageOf(s.rows, key, 0).tasks == 0 && UsageOf(s.rows, key, 1).tasks == 1
  {
    var actions := [Check(0, key, 1, false, true), Create(0), Midnight, Record(0, true)];
    var s1 := Step(START, actions[0]);
    assert s1.pending == map[0 := Request(key, true, None)];
    var s2 := Step(s1, actions[1]);
    assert s2.pending == map[0 := Request(key, true, Some(0))] && s2.log == [Creation(key, 0, true, Open)];
    var s3 := Step(s2, actions[2]);
    var s4 := Step(s3, actions[3]);
    hide Step, Enabled;
    assert actions[1..][0] == actions[1] && actions[1..][1..] == actions[2..];
    assert actions[2..][0] == actions[2] && actions[2..][1..] == actions[3..];
    assert actions[3..][0] == actions[3] && actions[3..][1..] == [];
    assert IsRun(s4, []) && After(s4, []) == s4;
    assert IsRun(s3, actions[3..]) && After(s3, actions[3..]) == s4;
    assert IsRun(s2, actions[2..]) && After(s2, actions[2..]) == s4;
    assert IsRun(s1, actions[1..]) && After(s1, actions[1..]) == s4;
  }

  // The bound is attained

  function OneTask(id: RequestId): seq<Action> {
    [Create(id), Record(id, true)]
  }

  /** n requests one after the other. */
  function Serial(key: KeyId, quota: int, n: nat): seq<Action> {
    if n == 0 then [] else [Check(0, key, quota, false, true)] + OneTask(0) + Serial(key, quota, n - 1)
  }

  /** n requests checked before any of them is recorded. */
  function Entering(key: KeyId, quota: int, n: nat): seq<Action> {
    if n == 0 then [] else Entering(key, quota, n - 1) + [Check(n - 1, key, quota, false, true)]
  }

  function Leaving(n: nat): seq<Action> {
    if n == 0 then [] else OneTask(n - 1) + Leaving(n - 1)
  }

  predicate Runs(s: State, actions: seq<Action>, key: KeyId, busy: nat) {
    IsRun(s, actions) && Busy(s, actions, key, busy)
  }

  lemma {:induction false} RunsCompose(s: State, first: seq<Action>, second: seq<Action>, key: KeyId, busy: nat)
    requires Runs(s, first, key, busy) && Runs(After(s, first), second, key, busy)
    ensures Runs(s, first + second, key, busy)
    ensures After(s, first + second) == After(After(s, first), second)
    decreases |first|
  {
    if first == [] {
      assert first + second == second;
    } else {
      assert (first + second)[1..] == first[1..] + second;
      RunsCompose(Step(s, first[0]), first[1..], second, key, busy);
    }
  }

  lemma OneStepRuns(s: State, a: Action, key: KeyId, busy: nat)
    requires Enabled(s, a) && |Requests(s, key)| <= busy && |Requests(Step(s, a), key)| <= busy
    ensures Runs(s, [a], key, busy) && After(s, [a]) == Step(s, a)
  {
    var s' := Step(s, a);
    assert [a][1..] == [];
    assert IsRun(s', []) && Busy(s', [], key, busy) && After(s', []) == s';
    hide Step, Requests;
  }

  function Below(n: nat): (ids: set<RequestId>)
    ensures |ids| == n && n !in ids && forall id: nat :: id in ids ==> id < n
  {
    if n == 0 then {} else Below(n - 1) + {n - 1}
  }

  function Copies(c: Creation, n: nat): seq<Creation> {
    seq(n, _ => c)
  }

  /** A task that counted on the day it was created. */
  function Done(key: KeyId, day: Day): Creation {
    Creation(key, day, true, Recorded(day))
  }

  /** Requests 0 to n - 1 of `key` have passed their check. */
  ghost predicate Waiting(s: State, key: KeyId, n: nat) {
    s.pending.Keys == Below(n) && forall id :: id in s.pending ==> s.pending[id] == Request(key, true, None)
  }

  function Tasks(s: State, key: KeyId): nat {
    UsageOf(s.rows, key, s.today).tasks
  }

  lemma WaitingSize(s: State, key: KeyId, n: nat)
    requires Waiting(s, key, n)
    ensures |Requests(s, key)| == n
  {
    assert Requests(s, key) == Below(n);
  }

  lemma {:induction false} EnteringRuns(s: State, key: KeyId, quota: int, n: nat, busy: nat)
    requires Waiting(s, key, 0) && Tasks(s, key) < quota && n <= busy
    ensures Runs(s, Entering(key, quota, n), key, busy)
    ensures var s' := After(s, Entering(key, quota, n));
            Waiting(s', key, n) && Tasks(s', key) == Tasks(s, key) && s'.today == s.today && s'.log == s.log
    decreases n
  {
    if n == 0 {
      WaitingSize(s, key, 0);
    } else {
      EnteringRuns(s, key, quota, n - 1, busy);
      var middle := After(s, Entering(key, quota, n - 1));
      var enter := Check(n - 1, key, quota, false, true);
      EnterOne(middle, key, quota, n - 1, busy);
      RunsCompose(s, Entering(key, quota, n - 1), [enter], key, busy);
    }
    hide *;
  }

  lemma EnterStep(s: State, key: KeyId, quota: int, n: nat)
    requires Waiting(s, key, n) && Tasks(s, key) < quota
    ensures var enter := Check(n, key, quota, false, true);
            Enabled(s, enter) &&
            var s' := Step(s, enter);
            Waiting(s', key, n + 1) && Tasks(s', key) == Tasks(s, key) && s'.today == s.today && s'.log == s.log
  {}

  lemma EnterOne(s: State, key: KeyId, quota: int, n: nat, busy: nat)
    requires Waiting(s, key, n) && Tasks(s, key) < quota && n < busy
    ensures var enter := Check(n, key, quota, false, true);
            Runs(s, [enter], key, busy) &&
            var s' := After(s, [enter]);
            Waiting(s', key, n + 1) && Tasks(s', key) == Tasks(s, key) && s'.today == s.today && s'.log == s.log
  {
    hide *;
    var enter := Check(n, key, quota, false, true);
    EnterStep(s, key, quota, n);
    WaitingSize(s, key, n);
    WaitingSize(Step(s, enter), key, n + 1);
    OneStepRuns(s, enter, key, busy);
  }

  lemma OneTaskSteps(s: State, key: KeyId, n: nat)
    requires Waiting(s, key, n + 1)
    ensures Enabled(s, Create(n)) && |Requests(s, key)| == n + 1
    ensures var middle := Step(s, Create(n));
            Enabled(middle, Record(n, true)) && |Requests(middle, key)| == n + 1 &&
            var last := Step(middle, Record(n, true));
            Waiting(last, key, n) && |Requests(last, key)| == n
            && Tasks(last, key) == Tasks(s, key) + 1 && last.today == s.today
            && last.log == s.log + [Done(key, s.today)]
  {
    var middle := Step(s, Create(n));
    var last := Step(middle, Record(n, true));
    WaitingSize(s, key, n + 1);
    assert Requests(middle, key) == Requests(s, key);
    assert Waiting(last, key, n);
    WaitingSize(last, key, n);
    hide Requests, Waiting;
  }

  lemma OneTaskRuns(s: State, key: KeyId, n: nat, busy: nat)
    requires Waiting(s, key, n + 1) && n < busy
    ensures Runs(s, OneTask(n), key, busy)
    ensures var s' := After(s, OneTask(n));
            Waiting(s', key, n) && Tasks(s', key) == Tasks(s, key) + 1 && s'.today == s.today
            && s'.log == s.log + [Done(key, s.today)]
  {
    assert OneTask(n) == [Create(n)] + [Record(n, true)];
    hide *;
    OneTaskSteps(s, key, n);
    var middle := Step(s, Create(n));
    OneStepRuns(s, Create(n), key, busy);
    OneStepRuns(middle, Record(n, true), key, busy);
    RunsCompose(s, [Create(n)], [Record(n, true)], key, busy);
  }

  lemma NothingRuns(s: State, key: KeyId, busy: nat)
    requires |Requests(s, key)| <= busy
    ensures Runs(s, [], key, busy) && After(s, []) == s
  {}

  lemma NoCopies(log: seq<Creation>, c: Creation)
    ensures log + Copies(c, 0) == log
  {}

  lemma MoreCopies(log: seq<Creation>, c: Creation, n: nat)
    ensures log + [c] + Copies(c, n) == log + Copies(c, n + 1)
  {}

  lemma {:induction false} LeavingRuns(s: State, key: KeyId, n: nat, busy: nat)
    requires Waiting(s, key, n) && n <= busy
    ensures Runs(s, Leaving(n), key, busy)
    ensures var s' := After(s, Leaving(n));
            Tasks(s', key) == Tasks(s, key) + n && s'.today == s.today
            && s'.log == s.log + Copies(Done(key, s.today), n)
    decreases n
  {
    hide Runs, After, Waiting, Tasks, Requests, Copies, Done, OneTask;
    WaitingSize(s, key, n);
    if n == 0 {
      NothingRuns(s, key, busy);
      NoCopies(s.log, Done(key, s.today));
    } else {
      OneTaskRuns(s, key, n - 1, busy);
      RunsAre(s, OneTask(n - 1), key, busy);
      LeavingRuns(After(s, OneTask(n - 1)), key, n - 1, busy);
      RunsCompose(s, OneTask(n - 1), Leaving(n - 1), key, busy);
      MoreCopies(s.log, Done(key, s.today), n - 1);
    }
  }

  lemma OneRuns(s: State, key: KeyId, quota: int, busy: nat)
    requires Waiting(s, key, 0) && Tasks(s, key) < quota && busy >= 1
    ensures var actions := [Check(0, key, quota, false, true)] + OneTask(0);
            Runs(s, actions, key, busy) &&
            var s' := After(s, actions);
            Waiting(s', key, 0) && Tasks(s', key) == Tasks(s, key) + 1 && s'.today == s.today
            && s'.log == s.log + [Done(key, s.today)]
  {
    hide *;
    var enter := [Check(0, key, quota, false, true)];
    EnterOne(s, key, quota, 0, busy);
    RunsAre(s, enter, key, busy);
    OneTaskRuns(After(s, enter), key, 0, busy);
    RunsCompose(s, enter, OneTask(0), key, busy);
  }

  lemma {:induction false} SerialRuns(s: State, key: KeyId, quota: int, n: nat, busy: nat)
    requires Waiting(s, key, 0) && Tasks(s, key) + n <= quota && busy >= 1
    ensures Runs(s, Serial(key, quota, n), key, busy)
    ensures var s' := After(s, Serial(key, quota, n));
            Waiting(s', key, 0) && Tasks(s', key) == Tasks(s, key) + n && s'.today == s.today
            && s'.log == s.log + Copies(Done(key, s.today), n)
    decreases n
  {
    hide Runs, After, Waiting, Tasks, Requests, Copies, Done, OneTask;
    WaitingSize(s, key, 0);
    if n == 0 {
      NothingRuns(s, key, busy);
      NoCopies(s.log, Done(key, s.today));
    } else {
      var one := [Check(0, key, quota, false, true)] + OneTask(0);
      OneRuns(s, key, quota, busy);
      RunsAre(s, one, key, busy);
      SerialRuns(After(s, one), key, quota, n - 1, busy);
      RunsCompose(s, one, Serial(key, quota, n - 1), key, busy);
      MoreCopies(s.log, Done(key, s.today), n - 1);
    }
  }

  lemma {:induction false} ScenarioIsLimited(key: KeyId, quota: nat, n: nat)
    requires quota >= 1
    ensures Limited(Serial(key, quota, n), key, quota)
    ensures Limited(Entering(key, quota, n), key, quota)
    ensures Limited(Leaving(n), key, quota)
  {
    if n > 0 {
      ScenarioIsLimited(key, quota, n - 1);
    }
  }

  // Tasks that no count ever sees

  /** n requests, each created and then lost with the process. */
  function Losing(key: KeyId, quota: int, n: nat): seq<Action> {
    if n == 0 then [] else [Check(0, key, quota, false, true), Create(0), Crash] + Losing(key, quota, n - 1)
  }

  lemma LosingOne(s: State, key: KeyId, quota: int, busy: nat)
    requires s.pending == map[] && Tasks(s, key) < quota && busy >= 1
    requires forall i :: 0 <= i < |s.log| ==> !s.log[i].fate.Open?
    ensures var actions := [Check(0, key, quota, false, true), Create(0), Crash];
            Runs(s, actions, key, busy) &&
            After(s, actions) == s.(log := s.log + [Creation(key, s.today, true, Lost)])
  {
    var check := Check(0, key, quota, false, true);
    var s1 := Step(s, check);
    assert s1.pending == map[0 := Request(key, true, None)];
    var s2 := Step(s1, Create(0));
    assert s2.pending == map[0 := Request(key, true, Some(|s.log|))];
    var s3 := Step(s2, Crash);
    assert s3.log == s.log + [Creation(key, s.today, true, Lost)];
    assert Requests(s, key) == {} == Requests(s3, key) && Requests(s1, key) == {0} == Requests(s2, key);
    hide Step, Enabled, Requests, Runs;
    OneStepRuns(s, check, key, busy);
    OneStepRuns(s1, Create(0), key, busy);
    OneStepRuns(s2, Crash, key, busy);
    RunsCompose(s1, [Create(0)], [Crash], key, busy);
    RunsCompose(s, [check], [Create(0)] + [Crash], key, busy);
    assert [check] + ([Create(0)] + [Crash]) == [check, Create(0), Crash];
  }

  lemma {:induction false} LosingRuns(s: State, key: KeyId, quota: int, n: nat, busy: nat)
    requires s.pending == map[] && Tasks(s, key) < quota && busy >= 1
    requires forall i :: 0 <= i < |s.log| ==> !s.log[i].fate.Open?
    ensures Runs(s, Losing(key, quota, n), key, busy)
    ensures After(s, Losing(key, quota, n)) == s.(log := s.log + Copies(Creation(key, s.today, true, Lost), n))
    decreases n
  {
    var lost := Creation(key, s.today, true, Lost);
    assert Requests(s, key) == {};
    if n == 0 {
      assert s.log + Copies(lost, 0) == s.log;
    } else {
      LosingOne(s, key, quota, busy);
      var one := [Check(0, key, quota, false, true), Create(0), Crash];
      var s' := After(s, one);
      hide Runs, After;
      LosingRuns(s', key, quota, n - 1, busy);
      RunsCompose(s, one, Losing(key, quota, n - 1), key, busy);
      assert s.log + [lost] + Copies(lost, n - 1) == s.log + Copies(lost, n);
    }
  }

  lemma {:induction false} LosingIsLimited(key: KeyId, quota: nat, n: nat)
    requires quota >= 1
    ensures Limited(Losing(key, quota, n), key, quota)
  {
    if n > 0 {
      LosingIsLimited(key, quota, n - 1);
    }
  }

  lemma {:induction false} CountCopies(log: seq<Creation>, c: Creation, n: nat, kind: Creation -> bool)
    ensures Count(log + Copies(c, n), kind) == Count(log, kind) + if kind(c) then n else 0
  {
    if n == 0 {
      assert log + Copies(c, 0) == log;
    } else {
      CountCopies(log, c, n - 1, kind);
      assert log + Copies(c, n) == log + Copies(c, n - 1) + [c];
      CountAppend(log + Copies(c, n - 1), c, kind);
    }
  }

  function Together(key: KeyId, quota: nat, busy: nat): seq<Action> {
    Entering(key, quota, busy) + Leaving(busy)
  }

  lemma TogetherRuns(s: State, key: KeyId, quota: nat, busy: nat)
    requires quota >= 1 && busy >= 1 && Waiting(s, key, 0) && Tasks(s, key) == 0
    ensures var actions := Serial(key, quota, quota - 1) + Together(key, quota, busy);
            Runs(s, actions, key, busy) && Limited(actions, key, quota) &&
            var s' := After(s, actions);
            && Tasks(s', key) == quota + busy - 1 && s'.today == s.today
            && s'.log == s.log + Copies(Done(key, s.today), quota + busy - 1)
  {
    var serial, entering, leaving := Serial(key, quota, quota - 1), Entering(key, quota, busy), Leaving(busy);
    ScenarioIsLimited(key, quota, quota - 1);
    ScenarioIsLimited(key, quota, busy);
    assert Limited(serial + (entering + leaving), key, quota);
    var done := Done(key, s.today);
    assert s.log + Copies(done, quota - 1) + Copies(done, busy) == s.log + Copies(done, quota + busy - 1);
    assert Together(key, quota, busy) == entering + leaving;
    hide *;
    SerialRuns(s, key, quota, quota - 1, busy);
    var middle := After(s, serial);
    EnteringRuns(middle, key, quota, busy, busy);
    LeavingRuns(After(middle, entering), key, busy, busy);
    RunsCompose(middle, entering, leaving, key, busy);
    RunsCompose(s, serial, entering + leaving, key, busy);
  }

  lemma AreTotals(s: State, key: KeyId, lost: nat, done: nat)
    requires s.log == Copies(Creation(key, 0, true, Lost), lost) + Copies(Done(key, 0), done)
    ensures Created(s, key, 0) == lost + done && CreatedBlind(s, key, 0) == 0 && Unrecorded(s, key, 0) == lost
  {
    LogCounts(key, lost, done);
    hide Count, Copies;
  }

  lemma LogCounts(key: KeyId, lost: nat, done: nat)
    ensures var log := Copies(Creation(key, 0, true, Lost), lost) + Copies(Done(key, 0), done);
            && Count(log, CreatedOn(key, 0, true)) == lost + done && Count(log, CreatedOn(key, 0, false)) == 0
            && Count(log, UnrecordedOf(key, 0)) == lost
  {
    var gone, there := Creation(key, 0, true, Lost), Done(key, 0);
    assert [] + Copies(gone, lost) == Copies(gone, lost);
    assert forall kind :: Places([], kind) == {};
    forall kind
      ensures Count(Copies(gone, lost) + Copies(there, done), kind)
           == (if kind(gone) then lost else 0) + (if kind(there) then done else 0)
    {
      CountCopies([], gone, lost, kind);
      CountCopies(Copies(gone, lost), there, done, kind);
    }
    hide Count, Places;
  }

  lemma StartLoses(key: KeyId, quota: nat, n: nat, busy: nat)
    requires quota >= 1 && busy >= 1
    ensures Runs(START, Losing(key, quota, n), key, busy) && Limited(Losing(key, quota, n), key, quota)
    ensures var s := After(START, Losing(key, quota, n));
            && Waiting(s, key, 0) && Tasks(s, key) == 0 && s.today == 0
            && s.log == Copies(Creation(key, 0, true, Lost), n)
  {
    var gone := Creation(key, 0, true, Lost);
    assert Tasks(START, key) == 0;
    assert START.log + Copies(gone, n) == Copies(gone, n);
    LosingIsLimited(key, quota, n);
    hide Runs, After, Losing, Limited, Copies;
    LosingRuns(START, key, quota, n, busy);
  }

  lemma LimitedJoins(a: seq<Action>, b: seq<Action>, key: KeyId, quota: nat)
    requires Limited(a, key, quota) && Limited(b, key, quota)
    ensures Limited(a + b, key, quota)
  {}

  /** Both bounds are the best possible, for every quota, every number of requests at once and every number of
      lost tasks: some tasks are created and lost with the process, then Q - 1 requests come in turn, then K
      together. With K = 1 the day ends at a count of exactly Q, and any number of tasks more were created. */
  lemma OvershootIsAttained(key: KeyId, quota: nat, busy: nat, lost: nat)
    requires quota >= 1 && busy >= 1
    ensures var actions := Losing(key, quota, lost) + (Serial(key, quota, quota - 1) + Together(key, quota, busy));
            Runs(START, actions, key, busy) && Limited(actions, key, quota) &&
            var s := After(START, actions);
            && s.today == 0 && Tasks(s, key) == quota + busy - 1
            && Created(s, key, 0) == quota + busy - 1 + lost
            && CreatedBlind(s, key, 0) == 0 && Unrecorded(s, key, 0) == lost
  {
    var losing, rest := Losing(key, quota, lost), Serial(key, quota, quota - 1) + Together(key, quota, busy);
    hide *;
    StartLoses(key, quota, lost, busy);
    var middle := After(START, losing);
    TogetherRuns(middle, key, quota, busy);
    LimitedJoins(losing, rest, key, quota);
    RunsCompose(START, losing, rest, key, busy);
    RunsAre(START, losing + rest, key, busy);
    AreTotals(After(START, losing + rest), key, lost, quota + busy - 1);
  }

  lemma RunsAre(s: State, actions: seq<Action>, key: KeyId, busy: nat)
    requires Runs(s, actions, key, busy)
    ensures IsRun(s, actions)
  {}
}
