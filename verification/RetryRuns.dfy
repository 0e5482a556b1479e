/** A delivery whose peer never answers, from its first claim to its last. */
module RetryRuns {
  import opened Wrappers
  import opened Webhook

  /** The actions, one after the other, lead from `s` to `s'`. */
  ghost predicate Leads(s: State, actions: seq<Action>, s': State)
    decreases |actions|
  {
    if actions == [] then s' == s
    else Enabled(s, actions[0]) && Leads(Step(s, actions[0]), actions[1..], s')
  }

  lemma {:induction false} LeadsOn(s: State, actions: seq<Action>, middle: State, more: seq<Action>, s': State)
    requires Leads(s, actions, middle) && Leads(middle, more, s')
    ensures Leads(s, actions + more, s')
    decreases |actions|
  {
    if actions == [] {
      assert actions + more == more;
    } else {
      assert (actions + more)[1..] == actions[1..] + more;
      LeadsOn(Step(s, actions[0]), actions[1..], middle, more, s');
    }
    hide Enabled, Step;
  }

  lemma LeadsOnce(s: State, a: Action)
    requires Enabled(s, a)
    ensures Leads(s, [a], Step(s, a))
  {
    hide Enabled, Step;
    assert [a][1..] == [];
    assert Leads(Step(s, a), [], Step(s, a));
  }

  const ID := "d"

  /** One delivery, and a dispatcher that is free. */
  function Waiting(now: nat, row: Delivery, l: Log): State {
    State(now, true, map[ID := row], map[ID := l], Idle, {})
  }

  function Ticks(n: nat): seq<Action> {
    if n == 0 then [] else [Tick] + Ticks(n - 1)
  }

  lemma {:induction false} Waits(now: nat, row: Delivery, l: Log, n: nat)
    ensures Leads(Waiting(now, row, l), Ticks(n), Waiting(now + n, row, l))
    decreases n
  {
    if n > 0 {
      LeadsOnce(Waiting(now, row, l), Tick);
      Waits(now + 1, row, l, n - 1);
      LeadsOn(Waiting(now, row, l), [Tick], Waiting(now + 1, row, l), Ticks(n - 1), Waiting(now + n, row, l));
    }
  }

  const ROUND := [Claim(ID), Post(false), Record(true)]

  /** A row that is pending or retrying, and whose time has come, is claimed, posted and recorded. */
  lemma RoundFails(now: nat, row: Delivery, l: Log)
    requires (row.status.Pending? || row.status.Retrying?) && row.nextAt <= now && row.attempts < 8
    ensures var k := row.attempts;
            Leads(Waiting(now, row, l), ROUND, Waiting(now,
              if k < 7 then Delivery(Retrying, k + 1, now + 30 * Pow2(k), Some(now))
              else Delivery(Dead, 8, row.nextAt, Some(now)),
              Log(l.posts + 1, l.lost, l.counted + [now])))
  {
    var k := row.attempts;
    if k < 7 {
      BackoffExact(k + 1);
    }
    var s := Waiting(now, row, l);
    assert Enabled(s, ROUND[0]);
    var s1 := Step(s, ROUND[0]);
    assert s1.rows == map[ID := row.(status := Sending)];
    var s2 := Step(s1, ROUND[1]);
    assert s2.log == map[ID := l.(posts := l.posts + 1)];
    assert Enabled(s2, ROUND[2]);
    var s3 := Step(s2, ROUND[2]);
    assert s3.rows == map[ID := RecordedRow(row.(status := Sending), k + 1, false, now)];
    assert s3.log == map[ID := Log(l.posts + 1, l.lost, l.counted + [now])];
    hide Enabled, Step, Leads;
    LeadsOnce(s, ROUND[0]);
    LeadsOnce(s1, ROUND[1]);
    LeadsOnce(s2, ROUND[2]);
    LeadsOn(s, [ROUND[0]], s1, [ROUND[1]], s2);
    LeadsOn(s, [ROUND[0]] + [ROUND[1]], s2, [ROUND[2]], s3);
    assert [ROUND[0]] + [ROUND[1]] + [ROUND[2]] == ROUND;
  }

  lemma FirstInsert()
    ensures Leads(START, [Recover, Insert(ID)], Waiting(0, NewDelivery(0), Log(0, 0, [])))
  {
    var s1 := Step(START, Recover);
    assert s1.rows == map[];
    var s2 := Step(s1, Insert(ID));
    assert s2 == Waiting(0, NewDelivery(0), Log(0, 0, []));
    LeadsOnce(START, Recover);
    LeadsOnce(s1, Insert(ID));
    hide Leads, Enabled, Step;
    LeadsOn(START, [Recover], s1, [Insert(ID)], s2);
    assert [Recover] + [Insert(ID)] == [Recover, Insert(ID)];
  }

  /** When the attempts of a delivery that always fails are counted. */
  const TIMES := [0, 30, 90, 210, 450, 930, 1890, 3810]

  lemma TimesDouble(k: nat)
    requires k < 7
    ensures TIMES[k + 1] == TIMES[k] + 30 * Pow2(k)
  {
    assert Pow2(1) == 2 && Pow2(2) == 4 && Pow2(3) == 8;
    assert Pow2(4) == 2 * Pow2(3) && Pow2(5) == 2 * Pow2(4) && Pow2(6) == 2 * Pow2(5);
  }

  /** The row when its attempt number `k` is due. */
  function RowBefore(k: nat): Delivery
    requires k < 8
  {
    if k == 0 then NewDelivery(0) else Delivery(Retrying, k, TIMES[k], Some(TIMES[k - 1]))
  }

  /** One attempt and the wait until the next one is due. */
  lemma OneMore(k: nat)
    requires k < 7
    ensures Leads(Waiting(TIMES[k], RowBefore(k), Log(k, 0, TIMES[..k])), ROUND + Ticks(TIMES[k + 1] - TIMES[k]),
                  Waiting(TIMES[k + 1], RowBefore(k + 1), Log(k + 1, 0, TIMES[..k + 1])))
  {
    hide Leads, Waiting, Ticks, Pow2, RowBefore;
    var here, there := TIMES[k], TIMES[k + 1];
    var row, row', l, l' := RowBefore(k), RowBefore(k + 1), Log(k, 0, TIMES[..k]), Log(k + 1, 0, TIMES[..k + 1]);
    RowsFollow(k);
    RoundFails(here, row, l);
    TimesDouble(k);
    Waits(here, row', l', there - here);
    LeadsOn(Waiting(here, row, l), ROUND, Waiting(here, row', l'), Ticks(there - here), Waiting(there, row', l'));
  }

  lemma RowsFollow(k: nat)
    requires k < 7
    ensures var row := RowBefore(k);
            (row.status.Pending? || row.status.Retrying?) && row.nextAt == TIMES[k] && row.attempts == k
    ensures RowBefore(k + 1) == Delivery(Retrying, k + 1, TIMES[k] + 30 * Pow2(k), Some(TIMES[k]))
    ensures TIMES[..k] + [TIMES[k]] == TIMES[..k + 1]
  {
    TimesDouble(k);
    hide Pow2;
  }

  lemma {:induction false} Fails(k: nat) returns (actions: seq<Action>)
    requires k < 8
    ensures Leads(START, actions, Waiting(TIMES[k], RowBefore(k), Log(k, 0, TIMES[..k])))
  {
    if k == 0 {
      FirstInsert();
      actions := [Recover, Insert(ID)];
    } else {
      hide Leads, Waiting, RowBefore, Ticks;
      actions := Fails(k - 1);
      OneMore(k - 1);
      var more := ROUND + Ticks(TIMES[k] - TIMES[k - 1]);
      LeadsOn(START, actions, Waiting(TIMES[k - 1], RowBefore(k - 1), Log(k - 1, 0, TIMES[..k - 1])), more,
              Waiting(TIMES[k], RowBefore(k), Log(k, 0, TIMES[..k])));
      actions := actions + more;
    }
  }

  /** A delivery that always fails is claimed again each time its backoff is over: POSTed eight times, at the
      earliest times there are, and then given up. The hour of `GivingUpTakesAnHour` is exact. */
  lemma EightFailuresGiveUp() returns (actions: seq<Action>, s: State)
    ensures Leads(START, actions, s) && ID in s.rows && s.rows[ID].status.Dead? && s.rows[ID].attempts == 8
    ensures LogOf(s, ID) == Log(8, 0, [0, 30, 90, 210, 450, 930, 1890, 3810])
  {
    actions := Fails(7);
    var row, l := RowBefore(7), Log(7, 0, TIMES[..7]);
    RoundFails(TIMES[7], row, l);
    assert TIMES[..7] + [TIMES[7]] == TIMES;
    s := Waiting(TIMES[7], Delivery(Dead, 8, row.nextAt, Some(TIMES[7])), Log(8, 0, TIMES));
    hide Leads;
    LeadsOn(START, actions, Waiting(TIMES[7], row, l), ROUND, s);
    actions := actions + ROUND;
  }
}
