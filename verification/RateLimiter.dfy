/** The per-key token bucket: it refills lazily, on each call. Tokens and seconds are reals. */
module RateLimiter {
  datatype Bucket = Bucket(tokens: real, maxTokens: real, refillRate: real, lastRefill: real)

  datatype Verdict = Verdict(allowed: bool, limit: nat, remaining: int, resetSecs: int)

  type Buckets = map<string, Bucket>

  function Min(a: real, b: real): real {
    if a <= b then a else b
  }

  function Ceil(x: real): int {
    -(-x).Floor
  }

  function Apart(a: real, b: real): real {
    if a <= b then b - a else a - b
  }

  /** `Instant::duration_since`, which is zero when the argument lies ahead. */
  function Elapsed(since: real, now: real): real {
    if since <= now then now - since else 0.0
  }

  function PerSecond(limit: nat): real {
    limit as real / 60.0
  }

  function Gain(secs: real, rate: real): real {
    secs * rate
  }

  function Opened(limit: nat, now: real): Bucket {
    Bucket(limit as real, limit as real, PerSecond(limit), now)
  }

  /** The bucket a call at `now` finds, once its limit is brought up to date and it is refilled. */
  function Refilled(b: Bucket, limit: nat, now: real): Bucket {
    var c := if Apart(b.maxTokens, limit as real) > 0.01
             then b.(maxTokens := limit as real, refillRate := PerSecond(limit)) else b;
    Bucket(Min(c.tokens + Gain(Elapsed(c.lastRefill, now), c.refillRate), c.maxTokens), c.maxTokens, c.refillRate, now)
  }

  function Spent(b: Bucket): Bucket {
    if b.tokens >= 1.0 then b.(tokens := b.tokens - 1.0) else b
  }

  function Answer(b: Bucket, limit: nat): Verdict
    requires b.refillRate > 0.0
  {
    if b.tokens >= 1.0 then
      var left := (b.tokens - 1.0).Floor;
      Verdict(true, limit, left, if left == 0 then Ceil(1.0 / b.refillRate) else 0)
    else Verdict(false, limit, 0, Ceil((1.0 - b.tokens) / b.refillRate))
  }

  const UNLIMITED := Verdict(true, 0, 0, 0)

  /** The bucket a call works on: the stored one, or a full one. */
  function Found(m: Buckets, key: string, limit: nat, now: real): Bucket {
    Refilled(if key in m then m[key] else Opened(limit, now), limit, now)
  }

  /** Tokens stay between zero and the limit. */
  function AfterCall(m: Buckets, key: string, limit: nat, now: real): (m': Buckets)
    requires Sound(m)
    ensures Sound(m')
  {
    if limit == 0 then m else FoundIsSound(m, key, limit, now); m[key := Spent(Found(m, key, limit, now))]
  }

  function VerdictOf(m: Buckets, key: string, limit: nat, now: real): Verdict
    requires Sound(m)
  {
    if limit == 0 then UNLIMITED else FoundIsSound(m, key, limit, now); Answer(Found(m, key, limit, now), limit)
  }

  // Tokens stay in range

  predicate SoundBucket(b: Bucket) {
    0.0 <= b.tokens <= b.maxTokens && b.maxTokens.Floor as real == b.maxTokens >= 1.0
        && b.refillRate == b.maxTokens / 60.0
  }

  predicate Sound(m: Buckets) {
    forall key :: key in m ==> SoundBucket(m[key])
  }

  lemma GainIsPositive(secs: real, rate: real)
    requires secs >= 0.0 && rate >= 0.0
    ensures Gain(secs, rate) >= 0.0
  {}

  lemma WholeLimitsAgree(x: real, limit: nat)
    requires x.Floor as real == x && Apart(x, limit as real) <= 0.01
    ensures x == limit as real
  {
    assert x.Floor == limit;
  }

  /** A refill leaves between 0 and `limit` tokens, and the limit is the caller's own. */
  lemma RefillIsSound(b: Bucket, limit: nat, now: real)
    requires SoundBucket(b) && limit > 0
    ensures SoundBucket(Refilled(b, limit, now))
    ensures Refilled(b, limit, now).maxTokens == limit as real
    ensures Refilled(b, limit, now).refillRate == PerSecond(limit)
    ensures Refilled(b, limit, now).tokens
         == Min(b.tokens + Gain(Elapsed(b.lastRefill, now), PerSecond(limit)), limit as real)
  {
    hide Gain;
    GainIsPositive(Elapsed(b.lastRefill, now), PerSecond(limit));
    if Apart(b.maxTokens, limit as real) <= 0.01 {
      WholeLimitsAgree(b.maxTokens, limit);
    }
    hide Apart, Elapsed;
    assert (limit as real).Floor == limit;
  }

  lemma FoundIsSound(m: Buckets, key: string, limit: nat, now: real)
    requires Sound(m) && limit > 0
    ensures SoundBucket(Found(m, key, limit, now))
    ensures Found(m, key, limit, now).maxTokens == limit as real
    ensures Found(m, key, limit, now).refillRate == PerSecond(limit)
  {
    RefillIsSound(if key in m then m[key] else Opened(limit, now), limit, now);
  }

  /** A bucket made a moment before it is used is still full. */
  lemma CreationTimeIsIrrelevant(m: Buckets, key: string, limit: nat, made: real, now: real)
    requires Sound(m) && limit > 0
    ensures Found(m, key, limit, now) == Refilled(if key in m then m[key] else Opened(limit, made), limit, now)
  {
    if key !in m {
      GainIsPositive(Elapsed(made, now), PerSecond(limit));
      GainIsPositive(0.0, PerSecond(limit));
      hide Gain;
    }
  }

  class Limiter {
    var buckets: Buckets

    constructor ()
      ensures buckets == map[]
    {
      buckets := map[];
    }

    /** `made` and `now` are the two clock readings of one call. */
    method Check(key: string, limit: nat, made: real, now: real) returns (verdict: Verdict)
      requires Sound(buckets) && made <= now
      modifies this
      ensures Sound(buckets)
      ensures buckets == AfterCall(old(buckets), key, limit, now)
      ensures verdict == VerdictOf(old(buckets), key, limit, now)
      ensures limit == 0 ==> verdict == Verdict(true, 0, 0, 0) && buckets == old(buckets)
    {
      if limit == 0 {
        return UNLIMITED;
      }
      hide SoundBucket, Gain, Found;
      var bucket := if key in buckets then buckets[key] else Opened(limit, made);
      CreationTimeIsIrrelevant(buckets, key, limit, made, now);
      FoundIsSound(buckets, key, limit, now);
      if Apart(bucket.maxTokens, limit as real) > 0.01 {
        bucket := bucket.(maxTokens := limit as real, refillRate := limit as real / 60.0);
      }
      var elapsed := Elapsed(bucket.lastRefill, now);
      bucket := bucket.(tokens := Min(bucket.tokens + Gain(elapsed, bucket.refillRate), bucket.maxTokens));
      bucket := bucket.(lastRefill := now);
      assert bucket == Found(buckets, key, limit, now);
      if bucket.tokens >= 1.0 {
        bucket := bucket.(tokens := bucket.tokens - 1.0);
        var remaining := bucket.tokens.Floor;
        verdict := Verdict(true, limit, remaining, if remaining == 0 then Ceil(1.0 / bucket.refillRate) else 0);
      } else {
        var wait := (1.0 - bucket.tokens) / bucket.refillRate;
        verdict := Verdict(false, limit, 0, Ceil(wait));
      }
      buckets := buckets[key := bucket];
    }

    method Remove(key: string)
      requires Sound(buckets)
      modifies this
      ensures buckets == old(buckets) - {key} && Sound(buckets)
    {
      buckets := buckets - {key};
    }
  }

  // Histories

  /** `Restart` is the process ending and starting again: buckets live in memory only. */
  datatype Event = Call(key: string, limit: nat, at: real) | Remove(key: string) | Restart

  function After(m: Buckets, e: Event): (m': Buckets)
    requires Sound(m)
    ensures Sound(m')
  {
    match e
    case Call(key, limit, at) => AfterCall(m, key, limit, at)
    case Remove(key) => m - {key}
    case Restart => map[]
  }

  predicate About(e: Event, key: string) {
    e.Restart? || e.key == key
  }

  /** The verdicts `key` gets over a history, in order. */
  function Verdicts(m: Buckets, history: seq<Event>, key: string): seq<Verdict>
    requires Sound(m)
    decreases |history|
  {
    if history == [] then []
    else
      var e := history[0];
      (if e.Call? && e.key == key then [VerdictOf(m, key, e.limit, e.at)] else [])
      + Verdicts(After(m, e), history[1..], key)
  }

  function AllowedCount(verdicts: seq<Verdict>): nat {
    if verdicts == [] then 0 else (if verdicts[0].allowed then 1 else 0) + AllowedCount(verdicts[1..])
  }

  /** The events of a history that concern one key. */
  function Only(history: seq<Event>, key: string): seq<Event> {
    if history == [] then []
    else (if About(history[0], key) then [history[0]] else []) + Only(history[1..], key)
  }

  predicate SameFor(m: Buckets, m': Buckets, key: string) {
    (key in m <==> key in m') && (key in m ==> m[key] == m'[key])
  }

  /** Calls on other keys never change what a key is told. */
  lemma {:induction false} KeysAreIndependent(m: Buckets, m': Buckets, history: seq<Event>, key: string)
    requires Sound(m) && Sound(m') && SameFor(m, m', key)
    ensures Verdicts(m, history, key) == Verdicts(m', Only(history, key), key)
    decreases |history|
  {
    hide Refilled, Spent, Answer;
    if history != [] {
      var e, rest := history[0], history[1..];
      if About(e, key) {
        KeysAreIndependent(After(m, e), After(m', e), rest, key);
        assert Only(history, key) == [e] + Only(rest, key);
        assert Only(history, key)[1..] == Only(rest, key);
      } else {
        KeysAreIndependent(After(m, e), m', rest, key);
        assert Only(history, key) == Only(rest, key);
      }
    }
  }

  // The window bound

  /** Tokens a call on `key` at time `t` would find if the limit were `limit`. */
  function Level(m: Buckets, key: string, limit: nat, t: real): real {
    if key in m then Min(m[key].tokens + Gain(Elapsed(m[key].lastRefill, t), PerSecond(limit)), limit as real)
    else limit as real
  }

  /** Every call on `key` asks for a limit between 1 and `limit`, at a time in `from..to`, and the
      clock never runs backwards. */
  predicate Within(history: seq<Event>, key: string, limit: nat, from: real, to: real) {
    from <= to &&
    (history != [] ==>
      var e := history[0];
      if e.Call? && e.key == key then
        1 <= e.limit <= limit && from <= e.at <= to && Within(history[1..], key, limit, e.at, to)
      else Within(history[1..], key, limit, from, to))
  }

  /** How often the bucket of `key` was thrown away. */
  function Resets(history: seq<Event>, key: string): nat {
    if history == [] then 0
    else (if !history[0].Call? && About(history[0], key) then 1 else 0) + Resets(history[1..], key)
  }

  /** Tokens gained because a bucket was thrown away, at most a full bucket each time. */
  function Refunds(resets: nat, limit: nat): real {
    limit as real * resets as real
  }

  lemma OneMoreRefund(resets: nat, limit: nat)
    ensures Refunds(resets + 1, limit) == limit as real + Refunds(resets, limit)
    ensures Refunds(resets, limit) >= 0.0
  {
    assert (resets + 1) as real == resets as real + 1.0;
  }

  /** R calls at once, R more for every minute, and R more for every bucket thrown away. */
  function Allowance(limit: nat, secs: real, resets: nat): real {
    limit as real * (1 + resets) as real + limit as real * secs / 60.0
  }

  predicate NotAhead(m: Buckets, key: string, t: real) {
    key in m ==> m[key].lastRefill <= t
  }

  lemma GainGrows(a: real, b: real, low: nat, high: nat)
    requires 0.0 <= a && 0.0 <= b && low <= high
    ensures Gain(a + b, PerSecond(high)) == Gain(a, PerSecond(high)) + Gain(b, PerSecond(high))
    ensures 0.0 <= Gain(a, PerSecond(low)) <= Gain(a, PerSecond(high))
    ensures 0.0 <= Gain(b, PerSecond(high))
  {
    assert PerSecond(low) <= PerSecond(high);
    assert a * PerSecond(low) <= a * PerSecond(high);
    assert (a + b) * PerSecond(high) == a * PerSecond(high) + b * PerSecond(high);
  }

  /** Waiting raises the level by at most the refill. */
  lemma LevelRises(m: Buckets, key: string, limit: nat, from: real, to: real)
    requires NotAhead(m, key, from) && from <= to
    ensures Level(m, key, limit, to) <= Level(m, key, limit, from) + Gain(to - from, PerSecond(limit))
  {
    if key in m {
      GainGrows(from - m[key].lastRefill, to - from, limit, limit);
      assert (from - m[key].lastRefill) + (to - from) == to - m[key].lastRefill;
      hide Gain;
    } else {
      GainGrows(to - from, 0.0, limit, limit);
    }
  }

  /** A call takes its token out of the level, whatever smaller limit it asks for. */
  lemma CallLowersLevel(m: Buckets, key: string, asked: nat, limit: nat, at: real)
    requires Sound(m) && NotAhead(m, key, at) && 1 <= asked <= limit
    ensures Level(AfterCall(m, key, asked, at), key, limit, at)
         + (if VerdictOf(m, key, asked, at).allowed then 1.0 else 0.0)
         <= Level(m, key, limit, at)
    ensures NotAhead(AfterCall(m, key, asked, at), key, at)
  {
    FoundIsSound(m, key, asked, at);
    var b := if key in m then m[key] else Opened(asked, at);
    RefillIsSound(b, asked, at);
    var gone := Elapsed(b.lastRefill, at);
    GainGrows(gone, 0.0, asked, limit);
    GainGrows(0.0, 0.0, limit, limit);
    hide Gain, Refilled;
  }

  lemma OthersKeepLevel(m: Buckets, e: Event, key: string, limit: nat, t: real)
    requires Sound(m) && (!About(e, key) || (e.Call? && e.limit == 0))
    ensures SameFor(m, After(m, e), key)
    ensures Level(After(m, e), key, limit, t) == Level(m, key, limit, t)
  {
    hide Refilled, Spent, Gain;
  }

  lemma SplitGain(from: real, at: real, to: real, limit: nat)
    requires from <= at <= to
    ensures Gain(to - from, PerSecond(limit)) == Gain(at - from, PerSecond(limit)) + Gain(to - at, PerSecond(limit))
  {
    GainGrows(at - from, to - at, limit, limit);
    assert (at - from) + (to - at) == to - from;
  }

  /** Tokens are conserved: what was allowed, plus what is left, came from the level at the start, the
      refill, and buckets thrown away. */
  lemma {:induction false} TokensConserved(m: Buckets, history: seq<Event>, key: string, limit: nat,
                                           from: real, to: real)
    requires Sound(m) && NotAhead(m, key, from) && Within(history, key, limit, from, to)
    ensures AllowedCount(Verdicts(m, history, key)) as real
         <= Level(m, key, limit, from) + Gain(to - from, PerSecond(limit)) + Refunds(Resets(history, key), limit)
    decreases |history|
  {
    hide Refilled, Spent, Answer, Gain, Found, Refunds, Level;
    OneMoreRefund(0, limit);
    GainGrows(to - from, 0.0, limit, limit);
    if history == [] {
      LevelIsPositive(m, key, limit, from);
    } else {
      var e, rest := history[0], history[1..];
      var m' := After(m, e);
      var more := Verdicts(m', rest, key);
      if e.Call? && e.key == key {
        var now := VerdictOf(m, key, e.limit, e.at);
        assert Verdicts(m, history, key) == [now] + more;
        assert Verdicts(m, history, key)[1..] == more;
        CallLowersLevel(m, key, e.limit, limit, e.at);
        TokensConserved(m', rest, key, limit, e.at, to);
        LevelRises(m, key, limit, from, e.at);
        SplitGain(from, e.at, to, limit);
      } else {
        assert Verdicts(m, history, key) == more;
        if About(e, key) {
          TokensConserved(m', rest, key, limit, from, to);
          LevelIsPositive(m, key, limit, from);
          OneMoreRefund(Resets(rest, key), limit);
          LevelAfterReset(m', key, limit, from);
        } else {
          OthersKeepLevel(m, e, key, limit, from);
          TokensConserved(m', rest, key, limit, from, to);
        }
      }
    }
  }

  lemma LevelAfterReset(m: Buckets, key: string, limit: nat, t: real)
    requires key !in m
    ensures Level(m, key, limit, t) == limit as real
  {}

  lemma LevelIsPositive(m: Buckets, key: string, limit: nat, t: real)
    requires Sound(m)
    ensures 0.0 <= Level(m, key, limit, t) <= limit as real
  {
    if key in m {
      GainIsPositive(Elapsed(m[key].lastRefill, t), PerSecond(limit));
      hide Gain;
    }
  }

  /** The promise of the limiter: in any window of T seconds of any history, a key whose limit stays at
      or below R gets at most R + R*T/60 calls, and R more each time its bucket is thrown away. */
  lemma WindowBound(m: Buckets, history: seq<Event>, key: string, limit: nat, from: real, to: real)
    requires Sound(m) && NotAhead(m, key, from) && Within(history, key, limit, from, to)
    ensures AllowedCount(Verdicts(m, history, key)) as real <= Allowance(limit, to - from, Resets(history, key))
  {
    TokensConserved(m, history, key, limit, from, to);
    LevelIsPositive(m, key, limit, from);
    WindowArithmetic(limit, Resets(history, key), to - from);
    hide *;
  }

  lemma WindowArithmetic(limit: nat, resets: nat, secs: real)
    ensures limit as real + Gain(secs, PerSecond(limit)) + Refunds(resets, limit)
         == Allowance(limit, secs, resets)
  {
    var r, n := limit as real, resets as real;
    assert (1 + resets) as real == 1.0 + n;
    assert r * (1.0 + n) == r + r * n;
    assert secs * (r / 60.0) == r * secs / 60.0;
  }

  function AfterAll(m: Buckets, history: seq<Event>): (m': Buckets)
    requires Sound(m)
    ensures Sound(m')
    decreases |history|
  {
    if history == [] then m else AfterAll(After(m, history[0]), history[1..])
  }

  // The bound is attained

  function Repeat(e: Event, n: nat): seq<Event> {
    if n == 0 then [] else [e] + Repeat(e, n - 1)
  }

  /** R calls at once at the start of every minute. */
  function Bursts(key: string, limit: nat, minutes: nat): seq<Event> {
    var last := Repeat(Call(key, limit, 60.0 * minutes as real), limit);
    if minutes == 0 then last else Bursts(key, limit, minutes - 1) + last
  }

  lemma {:induction false} VerdictsOfTwoParts(m: Buckets, first: seq<Event>, second: seq<Event>, key: string)
    requires Sound(m)
    ensures AfterAll(m, first + second) == AfterAll(AfterAll(m, first), second)
    ensures AllowedCount(Verdicts(m, first + second, key))
         == AllowedCount(Verdicts(m, first, key)) + AllowedCount(Verdicts(AfterAll(m, first), second, key))
    decreases |first|
  {
    hide AfterCall, VerdictOf;
    if first == [] {
      assert first + second == second;
    } else {
      var e, rest := first[0], first[1..];
      assert (first + second)[1..] == rest + second;
      VerdictsOfTwoParts(After(m, e), rest, second, key);
      if e.Call? && e.key == key {
        var v := VerdictOf(m, key, e.limit, e.at);
        assert Verdicts(m, first + second, key) == [v] + Verdicts(After(m, e), rest + second, key);
        assert Verdicts(m, first, key) == [v] + Verdicts(After(m, e), rest, key);
      } else {
        assert Verdicts(m, first + second, key) == Verdicts(After(m, e), rest + second, key);
        assert Verdicts(m, first, key) == Verdicts(After(m, e), rest, key);
      }
    }
  }

  /** One call at `at` under the level: exactly one token goes when there is one, none otherwise. */
  lemma CallSpends(m: Buckets, key: string, limit: nat, at: real)
    requires Sound(m) && NotAhead(m, key, at) && limit >= 1
    ensures var level, b := Level(m, key, limit, at), AfterCall(m, key, limit, at);
            && VerdictOf(m, key, limit, at).allowed == (level >= 1.0)
            && key in b && b[key].lastRefill == at
            && b[key].tokens == (if level >= 1.0 then level - 1.0 else level)
  {
    FoundIsSound(m, key, limit, at);
    var b := if key in m then m[key] else Opened(limit, at);
    RefillIsSound(b, limit, at);
    GainGrows(0.0, 0.0, limit, limit);
    hide Gain, Refilled;
  }

  /** Of n calls made at one instant, as many are allowed as there are whole tokens. */
  lemma {:induction false} BurstIsExact(m: Buckets, key: string, limit: nat, at: real, n: nat)
    requires Sound(m) && NotAhead(m, key, at) && limit >= 1
    ensures var level, burst := Level(m, key, limit, at), Repeat(Call(key, limit, at), n);
            && AllowedCount(Verdicts(m, burst, key)) == (if n <= level.Floor then n else level.Floor)
            && (1 <= n <= level.Floor ==>
                var m' := AfterAll(m, burst);
                key in m' && m'[key].lastRefill == at && m'[key].tokens == level - n as real)
    decreases n
  {
    hide AfterCall, VerdictOf, Level;
    LevelIsPositive(m, key, limit, at);
    if n > 0 {
      var e := Call(key, limit, at);
      var burst, rest := Repeat(e, n), Repeat(e, n - 1);
      assert burst[1..] == rest;
      CallSpends(m, key, limit, at);
      var m' := AfterCall(m, key, limit, at);
      LevelAtRefill(m', key, limit, at);
      BurstIsExact(m', key, limit, at, n - 1);
      assert Verdicts(m, burst, key) == [VerdictOf(m, key, limit, at)] + Verdicts(m', rest, key);
      assert AfterAll(m, burst) == AfterAll(m', rest);
    }
  }

  /** `remaining` is honest: of n more calls at the same instant, exactly min(n, remaining) are allowed. */
  lemma RemainingIsExact(m: Buckets, key: string, limit: nat, at: real, n: nat)
    requires Sound(m) && NotAhead(m, key, at) && limit >= 1 && VerdictOf(m, key, limit, at).allowed
    ensures var left := VerdictOf(m, key, limit, at).remaining;
            AllowedCount(Verdicts(AfterCall(m, key, limit, at), Repeat(Call(key, limit, at), n), key))
              == (if n <= left then n else left)
  {
    var m' := AfterCall(m, key, limit, at);
    CallSpends(m, key, limit, at);
    LevelIsPositive(m, key, limit, at);
    LevelAtRefill(m', key, limit, at);
    FoundLevel(m, key, limit, at);
    BurstIsExact(m', key, limit, at, n);
    hide AfterCall, Found, Level, Gain, Verdicts;
  }

  lemma FoundLevel(m: Buckets, key: string, limit: nat, at: real)
    requires Sound(m) && limit >= 1
    ensures Found(m, key, limit, at).tokens == Level(m, key, limit, at)
  {
    RefillIsSound(if key in m then m[key] else Opened(limit, at), limit, at);
    GainIsPositive(0.0, PerSecond(limit));
    hide Gain, Refilled;
  }

  lemma LevelAtRefill(m: Buckets, key: string, limit: nat, at: real)
    requires Sound(m) && key in m && m[key].lastRefill == at && m[key].tokens <= limit as real
    ensures Level(m, key, limit, at) == m[key].tokens
  {
    assert Gain(0.0, PerSecond(limit)) == 0.0;
  }

  lemma LevelAMinuteLater(m: Buckets, key: string, limit: nat, at: real)
    requires key in m && m[key].tokens == 0.0 && m[key].lastRefill == at
    ensures Level(m, key, limit, at + 60.0) == limit as real
  {
    assert Gain(60.0, PerSecond(limit)) == limit as real;
  }

  /** The window bound is the best possible: bursts of R a minute apart are allowed in full, and over k
      minutes they add up to R + R*60k/60. */
  lemma {:induction false} BoundIsAttained(key: string, limit: nat, minutes: nat)
    requires limit >= 1
    ensures AllowedCount(Verdicts(map[], Bursts(key, limit, minutes), key)) == limit * (1 + minutes)
    ensures AllowedCount(Verdicts(map[], Bursts(key, limit, minutes), key)) as real
         == Allowance(limit, 60.0 * minutes as real, 0)
    ensures var m := AfterAll(map[], Bursts(key, limit, minutes));
            key in m && m[key].tokens == 0.0 && m[key].lastRefill == 60.0 * minutes as real
    decreases minutes
  {
    hide AfterCall, VerdictOf, Level;
    var at := 60.0 * minutes as real;
    var burst := Repeat(Call(key, limit, at), limit);
    if minutes == 0 {
      FreshLevel(key, limit, at);
      BurstIsExact(map[], key, limit, at, limit);
    } else {
      var before := Bursts(key, limit, minutes - 1);
      var m := AfterAll(map[], before);
      BoundIsAttained(key, limit, minutes - 1);
      LevelAMinuteLater(m, key, limit, 60.0 * (minutes - 1) as real);
      assert 60.0 * (minutes - 1) as real + 60.0 == at;
      BurstIsExact(m, key, limit, at, limit);
      VerdictsOfTwoParts(map[], before, burst, key);
      assert limit * (1 + minutes) == limit * minutes + limit;
    }
    AllowanceOfMinutes(limit, minutes);
    hide *;
  }

  lemma FreshLevel(key: string, limit: nat, at: real)
    ensures Level(map[], key, limit, at) == limit as real
    ensures (limit as real).Floor == limit
  {}

  lemma AllowanceOfMinutes(limit: nat, minutes: nat)
    ensures (limit * (1 + minutes)) as real == Allowance(limit, 60.0 * minutes as real, 0)
  {
    var r, k := limit as real, minutes as real;
    assert r * (60.0 * k) / 60.0 == r * k;
    assert (limit * minutes) as real == r * k;
    assert limit * (1 + minutes) == limit + limit * minutes;
  }

  // Retry-after

  /** Every call on `key` asks for exactly `limit`. */
  predicate FixedLimit(history: seq<Event>, key: string, limit: nat) {
    forall i :: 0 <= i < |history| && history[i].Call? && history[i].key == key ==> history[i].limit == limit
  }

  /** Tokens at `t`, not capped, if nothing is taken out before. */
  function Promise(m: Buckets, key: string, limit: nat, t: real): real
    requires key in m
  {
    m[key].tokens + Gain(t - m[key].lastRefill, PerSecond(limit))
  }

  /** A denied call refills without loss: splitting an interval by denied calls changes nothing. */
  lemma DeniedCallKeepsPromise(m: Buckets, key: string, limit: nat, at: real, t: real)
    requires Sound(m) && key in m && NotAhead(m, key, at) && limit >= 1 && at <= t
    ensures key in AfterCall(m, key, limit, at)
    ensures !VerdictOf(m, key, limit, at).allowed ==>
      Promise(AfterCall(m, key, limit, at), key, limit, t) == Promise(m, key, limit, t)
  {
    CallSpends(m, key, limit, at);
    SplitGain(m[key].lastRefill, at, t, limit);
    hide Gain, AfterCall, VerdictOf;
  }

  lemma {:induction false} DeniedCallsKeepPromise(m: Buckets, history: seq<Event>, key: string, limit: nat,
                                                  from: real, t: real)
    requires Sound(m) && key in m && NotAhead(m, key, from) && limit >= 1
    requires Within(history, key, limit, from, t) && FixedLimit(history, key, limit) && Resets(history, key) == 0
    requires AllowedCount(Verdicts(m, history, key)) == 0
    ensures key in AfterAll(m, history) && NotAhead(AfterAll(m, history), key, t)
    ensures Promise(AfterAll(m, history), key, limit, t) == Promise(m, key, limit, t)
    decreases |history|
  {
    hide AfterCall, VerdictOf, Gain;
    if history != [] {
      var e, rest := history[0], history[1..];
      if e.Call? && e.key == key {
        assert Verdicts(m, history, key) == [VerdictOf(m, key, limit, e.at)] + Verdicts(After(m, e), rest, key);
        assert Verdicts(m, history, key)[1..] == Verdicts(After(m, e), rest, key);
        DeniedCallKeepsPromise(m, key, limit, e.at, t);
        CallLowersLevel(m, key, limit, limit, e.at);
        DeniedCallsKeepPromise(After(m, e), rest, key, limit, e.at, t);
      } else {
        OthersKeepLevel(m, e, key, limit, t);
        assert Verdicts(m, history, key) == Verdicts(After(m, e), rest, key);
        DeniedCallsKeepPromise(After(m, e), rest, key, limit, from, t);
      }
    }
  }

  lemma CeilBounds(x: real)
    ensures (Ceil(x) - 1) as real < x <= Ceil(x) as real
  {}

  lemma RateTimesWait(need: real, limit: nat, secs: real)
    requires limit >= 1 && secs >= need / PerSecond(limit)
    ensures Gain(secs, PerSecond(limit)) >= need
  {
    var rate := PerSecond(limit);
    assert (secs - need / rate) * rate >= 0.0;
    assert need / rate * rate == need;
  }

  lemma RateTimesLess(need: real, limit: nat, secs: real)
    requires limit >= 1 && secs < need / PerSecond(limit)
    ensures Gain(secs, PerSecond(limit)) < need
  {
    var rate := PerSecond(limit);
    assert (need / rate - secs) * rate > 0.0;
    assert need / rate * rate == need;
  }

  /** What `reset_secs` says about the bucket it leaves: waiting that long brings a whole token, and
      after a denial one second less does not. */
  lemma ResetMeetsPromise(m: Buckets, key: string, limit: nat, at: real, t: real)
    requires Sound(m) && NotAhead(m, key, at) && limit >= 1 && at <= t
    ensures var v, m' := VerdictOf(m, key, limit, at), AfterCall(m, key, limit, at);
            && key in m'
            && (t >= at + v.resetSecs as real ==> Promise(m', key, limit, t) >= 1.0)
            && (!v.allowed && t <= at + (v.resetSecs - 1) as real ==> Promise(m', key, limit, t) < 1.0)
  {
    var v, m' := VerdictOf(m, key, limit, at), AfterCall(m, key, limit, at);
    var b := Found(m, key, limit, at);
    FoundIsSound(m, key, limit, at);
    assert m'[key] == Spent(b) && Spent(b).lastRefill == at;
    hide Found;
    GainGrows(t - at, 0.0, limit, limit);
    var rate := PerSecond(limit);
    if b.tokens >= 1.0 {
      CeilBounds(1.0 / rate);
      if v.remaining == 0 && t >= at + v.resetSecs as real {
        RateTimesWait(1.0, limit, t - at);
      }
      hide Gain;
    } else {
      var need := 1.0 - b.tokens;
      CeilBounds(need / rate);
      if t >= at + v.resetSecs as real {
        RateTimesWait(need, limit, t - at);
      } else if t <= at + (v.resetSecs - 1) as real {
        RateTimesLess(need, limit, t - at);
      }
      hide Gain;
    }
  }

  /** Retry-after is sound: after any verdict on a limited key, a call at least `reset_secs` later is
      allowed, however many denied calls and calls on other keys came between. */
  lemma RetryAfterIsSound(m: Buckets, key: string, limit: nat, at: real, between: seq<Event>, t: real)
    requires Sound(m) && NotAhead(m, key, at) && limit >= 1
    requires Within(between, key, limit, at, t) && FixedLimit(between, key, limit) && Resets(between, key) == 0
    requires AllowedCount(Verdicts(AfterCall(m, key, limit, at), between, key)) == 0
    requires t >= at + VerdictOf(m, key, limit, at).resetSecs as real
    ensures VerdictOf(AfterAll(AfterCall(m, key, limit, at), between), key, limit, t).allowed
  {
    var m' := AfterCall(m, key, limit, at);
    WithinOrder(between, key, limit, at, t);
    ResetMeetsPromise(m, key, limit, at, t);
    CallLowersLevel(m, key, limit, limit, at);
    DeniedCallsKeepPromise(m', between, key, limit, at, t);
    CallSpends(AfterAll(m', between), key, limit, t);
    hide Gain, AfterCall, VerdictOf, AfterAll;
  }

  lemma WithinOrder(history: seq<Event>, key: string, limit: nat, from: real, to: real)
    requires Within(history, key, limit, from, to)
    ensures from <= to
  {}

  /** Retry-after is tight: after a denial, no call is allowed until `reset_secs` minus one second. */
  lemma RetryAfterIsTight(m: Buckets, key: string, limit: nat, at: real, history: seq<Event>, t: real)
    requires Sound(m) && NotAhead(m, key, at) && limit >= 1
    requires Within(history, key, limit, at, t) && Resets(history, key) == 0
    ensures var v := VerdictOf(m, key, limit, at);
            !v.allowed && t <= at + (v.resetSecs - 1) as real ==>
              AllowedCount(Verdicts(AfterCall(m, key, limit, at), history, key)) == 0
  {
    var v, m' := VerdictOf(m, key, limit, at), AfterCall(m, key, limit, at);
    if !v.allowed && t <= at + (v.resetSecs - 1) as real {
      WithinOrder(history, key, limit, at, t);
      ResetMeetsPromise(m, key, limit, at, t);
      CallLowersLevel(m, key, limit, limit, at);
      TokensConserved(m', history, key, limit, at, t);
      CallSpends(m, key, limit, at);
      LevelIsPositive(m, key, limit, at);
      LevelAtRefill(m', key, limit, at);
      assert Refunds(0, limit) == 0.0;
      hide Gain, AfterCall, VerdictOf, Level, Refunds;
    }
  }

  lemma WaitBounds(need: real, limit: nat, secs: int)
    requires limit >= 1 && secs == Ceil(need / PerSecond(limit))
    ensures (secs - 1) as real * limit as real < need * 60.0 <= secs as real * limit as real
  {
    var rate, x := PerSecond(limit), need / PerSecond(limit);
    CeilBounds(x);
    assert x * rate == need;
    assert rate * 60.0 == limit as real;
    TimesLimit(x, rate, limit, need);
    Scaled((secs - 1) as real, x, limit as real);
    Scaled(x, secs as real, limit as real);
  }

  lemma TimesLimit(x: real, rate: real, limit: nat, need: real)
    requires x * rate == need && rate * 60.0 == limit as real
    ensures x * limit as real == need * 60.0
  {}

  lemma Scaled(x: real, y: real, factor: real)
    requires factor > 0.0
    ensures x < y ==> x * factor < y * factor
    ensures x <= y ==> x * factor <= y * factor
  {}

  /** The whole verdict from the tokens there are: allowed from one token on; what remains is the whole tokens
      left; and `resetSecs` is the least number of seconds that bring what is missing to one token, which is a
      whole token after the last call allowed, and 0 while calls remain. */
  lemma VerdictIsExact(m: Buckets, key: string, limit: nat, at: real)
    requires Sound(m) && limit >= 1
    ensures var v, level := VerdictOf(m, key, limit, at), Level(m, key, limit, at);
            && v.limit == limit && (v.allowed <==> level >= 1.0)
            && v.remaining == (if v.allowed then level.Floor - 1 else 0)
            && (v.allowed && v.remaining > 0 ==> v.resetSecs == 0)
            && (v.remaining == 0 ==>
                  var missing := if v.allowed then 1.0 else 1.0 - level;
                  (v.resetSecs - 1) as real * limit as real < missing * 60.0 <= v.resetSecs as real * limit as real)
  {
    FoundIsSound(m, key, limit, at);
    FoundLevel(m, key, limit, at);
    var b := Found(m, key, limit, at);
    hide Found, Level, SoundBucket;
    if b.tokens >= 1.0 {
      WaitBounds(1.0, limit, Ceil(1.0 / b.refillRate));
    } else {
      WaitBounds(1.0 - b.tokens, limit, Ceil((1.0 - b.tokens) / b.refillRate));
    }
  }
}
