/** The per-key token bucket with idle cleanup: window bound, invisibility of cleanup, exactness of the wait. */
module RateLimiter {

  /** rate is tokens per second; times are seconds on one monotonic clock. */
  datatype Config = Config(rate: real, burst: int)

  datatype Bucket = Bucket(tokens: real, lastCheck: real)

  type Buckets = map<string, Bucket>

  const IDLE_THRESHOLD: real := 600.0

  function Cap(c: Config, tokens: real): real {
    if tokens > c.burst as real then c.burst as real else tokens
  }

  /** Tokens refilled between two times. */
  function Refill(rate: real, from: real, to: real): real {
    (to - from) * rate
  }

  /** The tokens a call would find. A key without a bucket is as good as a full bucket. */
  function Level(c: Config, m: Buckets, key: string, now: real): real {
    if key in m then Cap(c, m[key].tokens + Refill(c.rate, m[key].lastCheck, now)) else c.burst as real
  }

  // ---- What the three operations do to the table of buckets ----

  function AllowStep(c: Config, m: Buckets, key: string, now: real): (Buckets, bool) {
    var tokens := Level(c, m, key, now);
    if tokens < 1.0 then (m[key := Bucket(tokens, now)], false) else (m[key := Bucket(tokens - 1.0, now)], true)
  }

  function SweepStep(m: Buckets, clock: real): Buckets {
    map key | key in m && !(m[key].lastCheck < clock - IDLE_THRESHOLD) :: m[key]
  }

  function Wait(c: Config, m: Buckets, key: string): real {
    if c.rate <= 0.0 || key !in m || m[key].tokens >= 1.0 then 0.0 else (1.0 - m[key].tokens) / c.rate
  }

  /** math.Ceil, then at least one second: the Retry-After header. */
  function RetryAfter(wait: real): int {
    var secs := -((-wait).Floor);
    if secs < 1 then 1 else secs
  }

  /** A limiter built for so many requests a minute refills as many tokens in 60 seconds. */
  lemma MinuteRefills(ratePerMinute: real, start: real)
    ensures Refill(ratePerMinute / 60.0, start, start + 60.0) == ratePerMinute
  {
    assert start + 60.0 - start == 60.0;
    assert ratePerMinute / 60.0 * 60.0 == ratePerMinute;
  }

  class Limiter {
    const config: Config
    var buckets: Buckets

    constructor (ratePerMinute: real, burst: int)
      ensures config == Config(ratePerMinute / 60.0, burst) && buckets == map[]
    {
      config := Config(ratePerMinute / 60.0, burst);
      buckets := map[];
    }

    method Allow(key: string, now: real) returns (allowed: bool)
      modifies this`buckets
      ensures config.rate <= 0.0 ==> allowed && buckets == old(buckets)
      ensures config.rate > 0.0 ==> (buckets, allowed) == AllowStep(config, old(buckets), key, now)
    {
      if config.rate <= 0.0 {
        return true;
      }
      if key !in buckets {
        buckets := buckets[key := Bucket(config.burst as real, now)];
      }
      var b := buckets[key];
      var elapsed := now - b.lastCheck;
      assert elapsed * config.rate == Refill(config.rate, b.lastCheck, now);
      assert key !in old(buckets) ==> elapsed * config.rate == 0.0;
      b := b.(tokens := b.tokens + elapsed * config.rate);
      if b.tokens > config.burst as real {
        b := b.(tokens := config.burst as real);
      }
      b := b.(lastCheck := now);
      if b.tokens < 1.0 {
        buckets := buckets[key := b];
        assert buckets == old(buckets)[key := b];
        return false;
      }
      b := b.(tokens := b.tokens - 1.0);
      buckets := buckets[key := b];
      assert buckets == old(buckets)[key := b];
      return true;
    }

    method SecondsUntilNextToken(key: string) returns (wait: real)
      ensures wait == Wait(config, buckets, key)
    {
      if config.rate <= 0.0 || key !in buckets || buckets[key].tokens >= 1.0 {
        return 0.0;
      }
      var deficit := 1.0 - buckets[key].tokens;
      return deficit / config.rate;
    }

    method Cleanup(now: real)
      modifies this`buckets
      ensures buckets == SweepStep(old(buckets), now)
    {
      var cutoff := now - IDLE_THRESHOLD;
      var todo := buckets.Keys;
      while todo != {}
        invariant todo <= buckets.Keys <= old(buckets).Keys
        invariant forall k :: k in buckets ==> buckets[k] == old(buckets)[k]
        invariant forall k :: k in old(buckets) && k !in todo ==>
                    (k in buckets <==> !(old(buckets)[k].lastCheck < cutoff))
      {
        var key :| key in todo;
        todo := todo - {key};
        if buckets[key].lastCheck < cutoff {
          buckets := buckets - {key};
        }
      }
    }
  }

  // ---- Runs ----

  /** A cleanup reads its clock before it takes the lock, so clock may lie before calls already served. */
  datatype Event = Call(key: string, at: real) | Sweep(clock: real)

  function Max(a: real, b: real): real {
    if a < b then b else a
  }

  function TimeOf(e: Event, now: real): real {
    if e.Call? then e.at else Max(now, e.clock)
  }

  /** No call happens before any clock reading made earlier in the run. */
  predicate Ordered(events: seq<Event>, now: real)
    decreases |events|
  {
    |events| == 0 ||
    match events[0]
    case Call(_, at) => now <= at && Ordered(events[1..], at)
    case Sweep(clock) => Ordered(events[1..], Max(now, clock))
  }

  function Step(c: Config, m: Buckets, e: Event): Buckets {
    match e
    case Call(key, at) => AllowStep(c, m, key, at).0
    case Sweep(clock) => SweepStep(m, clock)
  }

  function Run(c: Config, m: Buckets, events: seq<Event>): Buckets
    decreases |events|
  {
    if |events| == 0 then m else Run(c, Step(c, m, events[0]), events[1..])
  }

  /** What the calls of a run are told, in order. */
  function Answers(c: Config, m: Buckets, events: seq<Event>): seq<bool>
    decreases |events|
  {
    if |events| == 0 then []
    else (if events[0].Call? then [AllowStep(c, m, events[0].key, events[0].at).1] else []) +
         Answers(c, Step(c, m, events[0]), events[1..])
  }

  function WithoutSweeps(events: seq<Event>): seq<Event> {
    if |events| == 0 then []
    else (if events[0].Call? then [events[0]] else []) + WithoutSweeps(events[1..])
  }

  /** How many calls of one key were granted at times in [t1, t2]. */
  function Granted(c: Config, m: Buckets, events: seq<Event>, key: string, t1: real, t2: real): nat
    decreases |events|
  {
    if |events| == 0 then 0
    else (var e := events[0];
          if e.Call? && e.key == key && t1 <= e.at <= t2 && AllowStep(c, m, key, e.at).1 then 1 else 0) +
         Granted(c, Step(c, m, events[0]), events[1..], key, t1, t2)
  }

  // ---- Every bucket holds between 0 and burst tokens ----

  ghost predicate Valid(c: Config, m: Buckets, now: real) {
    forall key :: key in m ==> 0.0 <= m[key].tokens <= c.burst as real && m[key].lastCheck <= now
  }

  /** Refill over adjacent intervals adds up, and is not negative. */
  lemma RefillAdds(rate: real, t1: real, t2: real, t3: real)
    requires rate > 0.0 && t1 <= t2 <= t3
    ensures Refill(rate, t1, t3) == Refill(rate, t1, t2) + Refill(rate, t2, t3)
    ensures Refill(rate, t1, t2) >= 0.0 && Refill(rate, t2, t3) >= 0.0
    ensures t2 < t3 ==> Refill(rate, t2, t3) > 0.0
    ensures Refill(rate, t2, t2) == 0.0
  {
    var a, b := t2 - t1, t3 - t2;
    assert a * rate >= 0.0 && b * rate >= 0.0;
    assert b > 0.0 ==> b * rate > 0.0;
    assert (a + b) * rate == a * rate + b * rate;
    assert Refill(rate, t1, t2) == a * rate && Refill(rate, t2, t3) == b * rate;
    assert Refill(rate, t1, t3) == (a + b) * rate;
  }

  lemma LevelBounds(c: Config, m: Buckets, key: string, now: real)
    requires c.rate > 0.0 && c.burst >= 0 && Valid(c, m, now)
    ensures 0.0 <= Level(c, m, key, now) <= c.burst as real
  {
    if key in m {
      RefillAdds(c.rate, m[key].lastCheck, now, now);
    }
  }

  lemma StepKeepsValid(c: Config, m: Buckets, e: Event, now: real)
    requires c.rate > 0.0 && c.burst >= 0 && Valid(c, m, now) && Ordered([e], now)
    ensures Valid(c, Step(c, m, e), TimeOf(e, now))
  {
    if e.Call? {
      LevelBounds(c, m, e.key, e.at);
    }
  }

  /** The latest clock reading of a run that starts at now. */
  function EndTime(events: seq<Event>, now: real): real
    decreases |events|
  {
    if |events| == 0 then now else EndTime(events[1..], TimeOf(events[0], now))
  }

  /** In every run from a valid table, such as the empty one, tokens stay within [0, burst]. */
  lemma {:induction false} RunKeepsValid(c: Config, m: Buckets, events: seq<Event>, now: real)
    requires c.rate > 0.0 && c.burst >= 0 && Valid(c, m, now) && Ordered(events, now)
    ensures now <= EndTime(events, now) && Valid(c, Run(c, m, events), EndTime(events, now))
    decreases |events|
  {
    if |events| > 0 {
      StepKeepsValid(c, m, events[0], now);
      RunKeepsValid(c, Step(c, m, events[0]), events[1..], TimeOf(events[0], now));
    }
  }

  /** Between events a level only accrues, up to the cap. */
  lemma LevelGrows(c: Config, m: Buckets, key: string, now: real, later: real)
    requires c.rate > 0.0 && Valid(c, m, now) && now <= later
    ensures Level(c, m, key, later) == Cap(c, Level(c, m, key, now) + Refill(c.rate, now, later))
  {
    RefillAdds(c.rate, now, later, later);
    if key in m {
      RefillAdds(c.rate, m[key].lastCheck, now, later);
    }
  }

  // ---- Cleanup is invisible ----

  /** A bucket old enough to be swept has refilled completely by the time anyone can ask. */
  lemma SweepKeepsLevel(c: Config, m: Buckets, clock: real, key: string, now: real)
    requires c.rate > 0.0 && c.burst as real <= IDLE_THRESHOLD * c.rate
    requires Valid(c, m, now) && clock <= now
    ensures Level(c, SweepStep(m, clock), key, now) == Level(c, m, key, now)
  {
    if key in m && m[key].lastCheck < clock - IDLE_THRESHOLD {
      RefillAdds(c.rate, m[key].lastCheck, m[key].lastCheck + IDLE_THRESHOLD, now);
      assert Refill(c.rate, m[key].lastCheck, m[key].lastCheck + IDLE_THRESHOLD) == IDLE_THRESHOLD * c.rate;
    }
  }

  ghost predicate SameLevels(c: Config, m1: Buckets, m2: Buckets, now: real) {
    forall key :: Level(c, m1, key, now) == Level(c, m2, key, now)
  }

  lemma SameLevelsLater(c: Config, m1: Buckets, m2: Buckets, now: real, later: real)
    requires c.rate > 0.0 && Valid(c, m1, now) && Valid(c, m2, now) && now <= later
    requires SameLevels(c, m1, m2, now)
    ensures SameLevels(c, m1, m2, later)
  {
    forall key
      ensures Level(c, m1, key, later) == Level(c, m2, key, later)
    {
      LevelGrows(c, m1, key, now, later);
      LevelGrows(c, m2, key, now, later);
    }
  }

  lemma SweptSameLevels(c: Config, m1: Buckets, m2: Buckets, clock: real, now: real)
    requires c.rate > 0.0 && c.burst as real <= IDLE_THRESHOLD * c.rate
    requires Valid(c, m1, now) && Valid(c, m2, now) && SameLevels(c, m1, m2, now)
    ensures SameLevels(c, SweepStep(m1, clock), m2, Max(now, clock))
  {
    var later := Max(now, clock);
    SameLevelsLater(c, m1, m2, now, later);
    forall key
      ensures Level(c, SweepStep(m1, clock), key, later) == Level(c, m2, key, later)
    {
      SweepKeepsLevel(c, m1, clock, key, later);
    }
  }

  /** The same call on two tables with the same levels gets the same answer and leaves the same levels. */
  lemma CallSameLevels(c: Config, m1: Buckets, m2: Buckets, key: string, at: real)
    requires SameLevels(c, m1, m2, at)
    ensures AllowStep(c, m1, key, at).1 == AllowStep(c, m2, key, at).1
    ensures SameLevels(c, AllowStep(c, m1, key, at).0, AllowStep(c, m2, key, at).0, at)
  {
    var n1, n2 := AllowStep(c, m1, key, at).0, AllowStep(c, m2, key, at).0;
    assert Level(c, m1, key, at) == Level(c, m2, key, at);
    forall other
      ensures Level(c, n1, other, at) == Level(c, n2, other, at)
    {
      assert Level(c, m1, other, at) == Level(c, m2, other, at);
    }
  }

  lemma SweepSilent(c: Config, m: Buckets, events: seq<Event>)
    requires |events| > 0 && events[0].Sweep?
    ensures Answers(c, m, events) == Answers(c, Step(c, m, events[0]), events[1..])
    ensures WithoutSweeps(events) == WithoutSweeps(events[1..])
  {
  }

  lemma {:induction false} SweepsUnobserved(c: Config, m1: Buckets, m2: Buckets, events: seq<Event>, now: real)
    requires c.rate > 0.0 && 0 <= c.burst && c.burst as real <= 600.0 * c.rate
    requires Valid(c, m1, now) && Valid(c, m2, now) && SameLevels(c, m1, m2, now) && Ordered(events, now)
    ensures Answers(c, m1, events) == Answers(c, m2, WithoutSweeps(events))
    decreases |events|
  {
    if |events| > 0 {
      var e := events[0];
      StepKeepsValid(c, m1, e, now);
      if e.Call? {
        SameLevelsLater(c, m1, m2, now, e.at);
        CallSameLevels(c, m1, m2, e.key, e.at);
        StepKeepsValid(c, m2, e, now);
        SweepsUnobserved(c, Step(c, m1, e), Step(c, m2, e), events[1..], e.at);
        assert WithoutSweeps(events)[1..] == WithoutSweeps(events[1..]);
      } else {
        SweptSameLevels(c, m1, m2, e.clock, now);
        SweepsUnobserved(c, Step(c, m1, e), m2, events[1..], Max(now, e.clock));
        SweepSilent(c, m1, events);
      }
    }
  }

  /** A limiter whose burst is not positive denies every call, swept or not. */
  lemma {:induction false} NoBurstNoGrant(c: Config, m1: Buckets, m2: Buckets, events: seq<Event>)
    requires c.burst <= 0
    ensures Answers(c, m1, events) == Answers(c, m2, WithoutSweeps(events))
    decreases |events|
  {
    if |events| > 0 {
      var e := events[0];
      if e.Call? {
        NoBurstNoGrant(c, Step(c, m1, e), Step(c, m2, e), events[1..]);
        assert WithoutSweeps(events)[1..] == WithoutSweeps(events[1..]);
      } else {
        NoBurstNoGrant(c, Step(c, m1, e), m2, events[1..]);
        SweepSilent(c, m1, events);
      }
    }
  }

  // ---- When the idle threshold is too short, some run observes the cleanup ----

  function Repeat(key: string, at: real, n: nat): seq<Event> {
    if n == 0 then [] else [Call(key, at)] + Repeat(key, at, n - 1)
  }

  function Count(answers: seq<bool>): nat {
    if |answers| == 0 then 0 else (if answers[0] then 1 else 0) + Count(answers[1..])
  }

  lemma {:induction false} CountConcat(a: seq<bool>, b: seq<bool>)
    ensures Count(a + b) == Count(a) + Count(b)
    decreases |a|
  {
    if |a| == 0 {
      assert a + b == b;
    } else {
      assert (a + b)[1..] == a[1..] + b;
      CountConcat(a[1..], b);
    }
  }

  /** What a call costs the level of its own key. */
  lemma CallCost(c: Config, m: Buckets, key: string, at: real)
    ensures Level(c, AllowStep(c, m, key, at).0, key, at) ==
            Level(c, m, key, at) - (if AllowStep(c, m, key, at).1 then 1.0 else 0.0)
    ensures AllowStep(c, m, key, at).1 <==> Level(c, m, key, at) >= 1.0
  {
    assert Refill(c.rate, at, at) == 0.0;
  }

  /** n calls at one instant are all granted exactly when n tokens are there. */
  lemma {:induction false} Drain(c: Config, m: Buckets, key: string, at: real, n: nat)
    requires Level(c, m, key, at) >= 0.0
    ensures Count(Answers(c, m, Repeat(key, at, n))) == n <==> Level(c, m, key, at) >= n as real
    ensures Count(Answers(c, m, Repeat(key, at, n))) <= n
    ensures Level(c, m, key, at) >= n as real ==>
              Level(c, Run(c, m, Repeat(key, at, n)), key, at) == Level(c, m, key, at) - n as real
    decreases n
  {
    if n > 0 {
      var e, rest := Call(key, at), Repeat(key, at, n - 1);
      assert ([e] + rest)[1..] == rest;
      CallCost(c, m, key, at);
      Drain(c, Step(c, m, e), key, at, n - 1);
      CountConcat([AllowStep(c, m, key, at).1], Answers(c, Step(c, m, e), rest));
    }
  }

  lemma {:induction false} AnswersConcat(c: Config, m: Buckets, a: seq<Event>, b: seq<Event>)
    ensures Answers(c, m, a + b) == Answers(c, m, a) + Answers(c, Run(c, m, a), b)
    ensures Run(c, m, a + b) == Run(c, Run(c, m, a), b)
    decreases |a|
  {
    if |a| == 0 {
      assert a + b == b;
    } else {
      assert (a + b)[1..] == a[1..] + b;
      AnswersConcat(c, Step(c, m, a[0]), a[1..], b);
    }
  }

  lemma {:induction false} RepeatOrdered(key: string, at: real, n: nat, rest: seq<Event>)
    requires Ordered(rest, at)
    ensures Ordered(Repeat(key, at, n) + rest, at)
    decreases n
  {
    if n == 0 {
      assert Repeat(key, at, n) + rest == rest;
    } else {
      RepeatOrdered(key, at, n - 1, rest);
      var all, tail := Repeat(key, at, n) + rest, Repeat(key, at, n - 1) + rest;
      assert all == [Call(key, at)] + tail && all[1..] == tail;
    }
  }

  lemma {:induction false} RepeatKept(key: string, at: real, n: nat, rest: seq<Event>)
    ensures WithoutSweeps(Repeat(key, at, n) + rest) == Repeat(key, at, n) + WithoutSweeps(rest)
    decreases n
  {
    if n == 0 {
      assert Repeat(key, at, n) + rest == rest;
    } else {
      RepeatKept(key, at, n - 1, rest);
      var all, tail := Repeat(key, at, n) + rest, Repeat(key, at, n - 1) + rest;
      assert all == [Call(key, at)] + tail && all[1..] == tail;
      assert WithoutSweeps(all) == [Call(key, at)] + WithoutSweeps(tail);
    }
  }

  /** The run that tells the two limiters apart: drain, clean up a little too early, drain again. */
  function Probe(n: nat, late: real): seq<Event> {
    Repeat("k", 0.0, n) + ([Sweep(late)] + Repeat("k", late, n))
  }

  lemma ProbeShape(n: nat, late: real)
    requires late >= 0.0
    ensures Ordered(Probe(n, late), 0.0)
    ensures WithoutSweeps(Probe(n, late)) == Repeat("k", 0.0, n) + Repeat("k", late, n)
  {
    var tail := [Sweep(late)] + Repeat("k", late, n);
    RepeatOrdered("k", late, n, []);
    RepeatKept("k", late, n, []);
    assert Repeat("k", late, n) + [] == Repeat("k", late, n);
    assert tail[1..] == Repeat("k", late, n);
    RepeatOrdered("k", 0.0, n, tail);
    RepeatKept("k", 0.0, n, tail);
  }

  lemma {:induction false} DrainTime(c: Config, m: Buckets, key: string, at: real, n: nat)
    requires n > 0 || (key in m && m[key].lastCheck == at)
    ensures key in Run(c, m, Repeat(key, at, n)) && Run(c, m, Repeat(key, at, n))[key].lastCheck == at
    decreases n
  {
    if n > 0 {
      assert Repeat(key, at, n)[1..] == Repeat(key, at, n - 1);
      DrainTime(c, Step(c, m, Call(key, at)), key, at, n - 1);
    }
  }

  /** The second drain finds a full bucket if it was swept, and less than a full one if not. */
  lemma SecondDrain(c: Config, m: Buckets, late: real)
    requires c.rate > 0.0 && c.burst > 0
    requires late > IDLE_THRESHOLD && late * c.rate < c.burst as real
    requires "k" in m && m["k"].lastCheck == 0.0 && Level(c, m, "k", 0.0) == 0.0
    ensures Count(Answers(c, SweepStep(m, late), Repeat("k", late, c.burst))) == c.burst
    ensures Count(Answers(c, m, Repeat("k", late, c.burst))) < c.burst
  {
    Drain(c, SweepStep(m, late), "k", late, c.burst);
    assert Refill(c.rate, 0.0, 0.0) == 0.0;
    assert Refill(c.rate, 0.0, late) == late * c.rate;
    RefillAdds(c.rate, 0.0, late, late);
    Drain(c, m, "k", late, c.burst);
  }

  lemma CleanupObserved(c: Config, late: real)
    requires c.rate > 0.0 && c.burst > 0
    requires late > IDLE_THRESHOLD && late * c.rate < c.burst as real
    ensures Answers(c, map[], Probe(c.burst, late)) != Answers(c, map[], WithoutSweeps(Probe(c.burst, late)))
  {
    var first, second := Repeat("k", 0.0, c.burst), Repeat("k", late, c.burst);
    var m := Run(c, map[], first);
    Drain(c, map[], "k", 0.0, c.burst);
    DrainTime(c, map[], "k", 0.0, c.burst);
    SecondDrain(c, m, late);
    ProbeShape(c.burst, late);
    var tail := [Sweep(late)] + second;
    assert tail[1..] == second;
    SweepSilent(c, m, tail);
    AnswersConcat(c, map[], first, tail);
    AnswersConcat(c, map[], first, second);
    CountConcat(Answers(c, map[], first), Answers(c, m, tail));
    CountConcat(Answers(c, map[], first), Answers(c, m, second));
  }

  /** Inserting cleanups anywhere never changes an answer. */
  ghost predicate CleanupInvisible(c: Config) {
    forall events :: Ordered(events, 0.0) ==>
      Answers(c, map[], events) == Answers(c, map[], WithoutSweeps(events))
  }

  /** Cleanup is invisible exactly when ten minutes refill a whole burst (or there is no burst to refill). */
  lemma CleanupInvisibleExactly(c: Config)
    requires c.rate > 0.0
    ensures CleanupInvisible(c) <==> c.burst <= 0 || c.burst as real <= 600.0 * c.rate
  {
    if c.burst <= 0 {
      forall events | Ordered(events, 0.0)
        ensures Answers(c, map[], events) == Answers(c, map[], WithoutSweeps(events))
      {
        NoBurstNoGrant(c, map[], map[], events);
      }
    } else if c.burst as real <= IDLE_THRESHOLD * c.rate {
      forall events | Ordered(events, 0.0)
        ensures Answers(c, map[], events) == Answers(c, map[], WithoutSweeps(events))
      {
        SweepsUnobserved(c, map[], map[], events, 0.0);
      }
    } else {
      var late := TooEarly(c);
      ProbeShape(c.burst, late);
      CleanupObserved(c, late);
    }
  }

  /** A moment past the idle threshold at which an empty bucket is not yet full. */
  lemma TooEarly(c: Config) returns (late: real)
    requires c.rate > 0.0 && 0 <= c.burst && c.burst as real > IDLE_THRESHOLD * c.rate
    ensures late > IDLE_THRESHOLD && late * c.rate < c.burst as real && c.burst > 0
  {
    var slack := c.burst as real - IDLE_THRESHOLD * c.rate;
    late := IDLE_THRESHOLD + slack / (2.0 * c.rate);
    LateIsEarlyEnough(c.rate, IDLE_THRESHOLD, slack);
  }

  lemma LateIsEarlyEnough(rate: real, idle: real, slack: real)
    requires rate > 0.0 && slack > 0.0
    ensures slack / (2.0 * rate) > 0.0
    ensures (idle + slack / (2.0 * rate)) * rate == idle * rate + slack / 2.0
  {
    var extra := slack / (2.0 * rate);
    assert extra * (2.0 * rate) == slack;
    assert extra * rate == slack / 2.0;
    PositiveFactor(extra, rate);
  }

  lemma PositiveFactor(a: real, b: real)
    requires b > 0.0 && a * b > 0.0
    ensures a > 0.0
  {
  }

  // ---- The window bound ----

  /** A sweep whose clock reads clock leaves the key's bucket in place. */
  predicate Spared(m: Buckets, key: string, clock: real) {
    key in m && !(m[key].lastCheck < clock - IDLE_THRESHOLD)
  }

  /** One event takes one token from the level of a key it grants, and leaves every other level alone: a sweep
      because the bucket stays, or because it had refilled. */
  lemma StepPays(c: Config, m: Buckets, e: Event, key: string, now: real)
    requires c.rate > 0.0 && 0 <= c.burst
    requires e.Sweep? ==> Spared(m, key, e.clock) || c.burst as real <= IDLE_THRESHOLD * c.rate
    requires Valid(c, m, now) && Ordered([e], now)
    ensures Level(c, Step(c, m, e), key, TimeOf(e, now)) == Level(c, m, key, TimeOf(e, now)) -
            (if e.Call? && e.key == key && AllowStep(c, m, key, e.at).1 then 1.0 else 0.0)
  {
    LevelBounds(c, m, key, TimeOf(e, now));
    RefillAdds(c.rate, TimeOf(e, now), TimeOf(e, now), TimeOf(e, now));
    if e.Sweep? && !Spared(m, key, e.clock) {
      SweepKeepsLevel(c, m, e.clock, key, TimeOf(e, now));
    }
  }

  lemma {:induction false} NoneAfter(c: Config, m: Buckets, events: seq<Event>, key: string, now: real,
                                     t1: real, t2: real)
    requires Ordered(events, now) && t2 < now
    ensures Granted(c, m, events, key, t1, t2) == 0
    decreases |events|
  {
    if |events| > 0 {
      var e := events[0];
      NoneAfter(c, Step(c, m, e), events[1..], key, TimeOf(e, now), t1, t2);
    }
  }

  /** From inside the window: what is granted until t2 is paid for by the level now and the refill until t2. */
  lemma {:induction false} WindowInside(c: Config, m: Buckets, events: seq<Event>, key: string, now: real,
                                        t1: real, t2: real)
    requires c.rate > 0.0 && 0 <= c.burst && c.burst as real <= IDLE_THRESHOLD * c.rate
    requires Valid(c, m, now) && Ordered(events, now) && now <= t2
    ensures Granted(c, m, events, key, t1, t2) as real <= Level(c, m, key, now) + Refill(c.rate, now, t2)
    decreases |events|
  {
    LevelBounds(c, m, key, now);
    RefillAdds(c.rate, now, t2, t2);
    if |events| > 0 {
      var e := events[0];
      var m', next := Step(c, m, e), TimeOf(e, now);
      StepKeepsValid(c, m, e, now);
      if t2 < next {
        NoneAfter(c, m', events[1..], key, next, t1, t2);
      } else {
        WindowInside(c, m', events[1..], key, next, t1, t2);
        LevelGrows(c, m, key, now, next);
        RefillAdds(c.rate, now, next, t2);
        StepPays(c, m, e, key, now);
      }
    }
  }

  lemma {:induction false} WindowBefore(c: Config, m: Buckets, events: seq<Event>, key: string, now: real,
                                        t1: real, t2: real)
    requires c.rate > 0.0 && 0 <= c.burst && c.burst as real <= IDLE_THRESHOLD * c.rate
    requires Valid(c, m, now) && Ordered(events, now) && t1 <= t2
    ensures Granted(c, m, events, key, t1, t2) as real <= c.burst as real + Refill(c.rate, t1, t2)
    decreases |events|
  {
    RefillAdds(c.rate, t1, t2, t2);
    if |events| > 0 {
      var e := events[0];
      if t2 < now {
        NoneAfter(c, m, events, key, now, t1, t2);
      } else if t1 <= now {
        WindowInside(c, m, events, key, now, t1, t2);
        LevelBounds(c, m, key, now);
        RefillAdds(c.rate, t1, now, t2);
      } else if e.Call? && t1 <= e.at {
        assert Valid(c, m, t1) && Ordered(events, t1);
        WindowInside(c, m, events, key, t1, t1, t2);
        LevelBounds(c, m, key, t1);
      } else {
        StepKeepsValid(c, m, e, now);
        WindowBefore(c, Step(c, m, e), events[1..], key, TimeOf(e, now), t1, t2);
      }
    }
  }

  /** In every run of calls and cleanups, one key is granted at most burst + rate * (t2 - t1) times in [t1, t2]. */
  lemma WindowBound(c: Config, events: seq<Event>, key: string, start: real, t1: real, t2: real)
    requires c.rate > 0.0 && 0 <= c.burst && c.burst as real <= 600.0 * c.rate
    requires Ordered(events, start) && t1 <= t2
    ensures Granted(c, map[], events, key, t1, t2) as real <= c.burst as real + Refill(c.rate, t1, t2)
  {
    WindowBefore(c, map[], events, key, start, t1, t2);
  }

  lemma {:induction false} GrantedIsCount(c: Config, m: Buckets, events: seq<Event>, key: string, t1: real, t2: real)
    requires forall i :: 0 <= i < |events| && events[i].Call? ==> events[i].key == key && t1 <= events[i].at <= t2
    ensures Granted(c, m, events, key, t1, t2) == Count(Answers(c, m, events))
    decreases |events|
  {
    if |events| > 0 {
      var e := events[0];
      GrantedIsCount(c, Step(c, m, e), events[1..], key, t1, t2);
      if e.Call? {
        CountConcat([AllowStep(c, m, e.key, e.at).1], Answers(c, Step(c, m, e), events[1..]));
      } else {
        SweepSilent(c, m, events);
      }
    }
  }

  lemma {:induction false} RepeatEvents(key: string, at: real, n: nat)
    ensures forall i :: 0 <= i < |Repeat(key, at, n)| ==> Repeat(key, at, n)[i] == Call(key, at)
    decreases n
  {
    if n > 0 {
      RepeatEvents(key, at, n - 1);
    }
  }

  /** With a sweep a little too early, the probe is granted two whole bursts. */
  lemma ProbeGrants(c: Config, late: real)
    requires c.rate > 0.0 && c.burst > 0
    requires late > IDLE_THRESHOLD && late * c.rate < c.burst as real
    ensures Granted(c, map[], Probe(c.burst, late), "k", 0.0, late) == 2 * c.burst
  {
    var first, second := Repeat("k", 0.0, c.burst), Repeat("k", late, c.burst);
    var m, tail := Run(c, map[], first), [Sweep(late)] + second;
    Drain(c, map[], "k", 0.0, c.burst);
    DrainTime(c, map[], "k", 0.0, c.burst);
    SecondDrain(c, m, late);
    assert tail[1..] == second;
    SweepSilent(c, m, tail);
    AnswersConcat(c, map[], first, tail);
    CountConcat(Answers(c, map[], first), Answers(c, m, tail));
    RepeatEvents("k", 0.0, c.burst);
    RepeatEvents("k", late, c.burst);
    GrantedIsCount(c, map[], Probe(c.burst, late), "k", 0.0, late);
  }

  ghost predicate WindowBounded(c: Config) {
    forall events, key, t1, t2 :: Ordered(events, 0.0) && t1 <= t2 ==>
      Granted(c, map[], events, key, t1, t2) as real <= c.burst as real + Refill(c.rate, t1, t2)
  }

  /** The window bound holds of all runs exactly when ten minutes refill a whole burst. */
  lemma WindowBoundExactly(c: Config)
    requires c.rate > 0.0 && 0 <= c.burst
    ensures WindowBounded(c) <==> c.burst as real <= 600.0 * c.rate
  {
    if c.burst as real <= IDLE_THRESHOLD * c.rate {
      forall events, key, t1, t2 | Ordered(events, 0.0) && t1 <= t2
        ensures Granted(c, map[], events, key, t1, t2) as real <= c.burst as real + Refill(c.rate, t1, t2)
      {
        WindowBound(c, events, key, 0.0, t1, t2);
      }
    } else {
      var late := TooEarly(c);
      ProbeShape(c.burst, late);
      ProbeGrants(c, late);
      assert Refill(c.rate, 0.0, late) == late * c.rate;
    }
  }

  // ---- The reported wait is exact ----

  predicate AllBefore(events: seq<Event>, deadline: real) {
    forall i :: 0 <= i < |events| ==> (if events[i].Call? then events[i].at else events[i].clock) < deadline
  }

  predicate OnlyCalls(events: seq<Event>) {
    forall i :: 0 <= i < |events| ==> events[i].Call?
  }

  /** No cleanup of the run can take the key's bucket before the deadline. */
  predicate OutOfReach(m: Buckets, key: string, deadline: real, events: seq<Event>) {
    key in m && (OnlyCalls(events) || deadline - m[key].lastCheck <= IDLE_THRESHOLD)
  }

  lemma {:induction false} DeniedUntil(c: Config, m: Buckets, events: seq<Event>, key: string, now: real,
                                       deadline: real)
    requires c.rate > 0.0 && 1 <= c.burst && OutOfReach(m, key, deadline, events)
    requires Valid(c, m, now) && Ordered(events, now) && now < deadline && AllBefore(events, deadline)
    requires Level(c, m, key, now) + Refill(c.rate, now, deadline) == 1.0
    ensures forall t1, t2 :: Granted(c, m, events, key, t1, t2) == 0
    ensures forall later :: deadline <= later ==> AllowStep(c, Run(c, m, events), key, later).1
    decreases |events|
  {
    if |events| == 0 {
      forall later | deadline <= later
        ensures AllowStep(c, m, key, later).1
      {
        LevelGrows(c, m, key, now, later);
        RefillAdds(c.rate, now, deadline, later);
      }
    } else {
      var e := events[0];
      var m', next := Step(c, m, e), TimeOf(e, now);
      StepKeepsValid(c, m, e, now);
      LevelGrows(c, m, key, now, next);
      RefillAdds(c.rate, now, next, deadline);
      StepPays(c, m, e, key, now);
      assert AllBefore(events[1..], deadline) && OutOfReach(m', key, deadline, events[1..]);
      DeniedUntil(c, m', events[1..], key, next, deadline);
    }
  }

  /** A denied call leaves a bucket that reaches one token exactly after the reported wait, which is at most the
      time one token takes. */
  lemma WaitRefills(c: Config, m: Buckets, key: string, t: real)
    requires c.rate > 0.0 && 1 <= c.burst && Valid(c, m, t) && !AllowStep(c, m, key, t).1
    ensures var m' := AllowStep(c, m, key, t).0;
      && Wait(c, m', key) > 0.0
      && Level(c, m', key, t) + Refill(c.rate, t, t + Wait(c, m', key)) == 1.0
      && (1.0 <= IDLE_THRESHOLD * c.rate ==> Wait(c, m', key) <= IDLE_THRESHOLD)
  {
    CallCost(c, m, key, t);
    LevelBounds(c, m, key, t);
    var m' := AllowStep(c, m, key, t).0;
    var w, missing := Wait(c, m', key), 1.0 - m'[key].tokens;
    assert w * c.rate == missing <= 1.0;
    PositiveFactor(w, c.rate);
    assert (t + w) - t == w;
    if w > IDLE_THRESHOLD {
      RefillAdds(c.rate, 0.0, IDLE_THRESHOLD, w);
      assert Refill(c.rate, 0.0, w) == w * c.rate;
      assert Refill(c.rate, 0.0, IDLE_THRESHOLD) == IDLE_THRESHOLD * c.rate;
    }
  }

  /** After the denial of key at t, events before the reported wait is over, all of key's calls among them denied,
      leave a bucket that grants every call from then on. */
  ghost predicate ExactAfter(c: Config, m: Buckets, key: string, t: real, events: seq<Event>) {
    var m' := AllowStep(c, m, key, t).0;
    var w := Wait(c, m', key);
    && w > 0.0
    && (Ordered(events, t) && AllBefore(events, t + w) ==>
         && (forall t1, t2 :: Granted(c, m', events, key, t1, t2) == 0)
         && (forall later :: t + w <= later ==> AllowStep(c, Run(c, m', events), key, later).1))
  }

  /** The reported wait is exact when a token takes at most ten minutes, and in runs without cleanup always. */
  lemma WaitIsExact(c: Config, m: Buckets, key: string, t: real, events: seq<Event>)
    requires c.rate > 0.0 && 1 <= c.burst && (1.0 <= 600.0 * c.rate || OnlyCalls(events))
    requires Valid(c, m, t) && !AllowStep(c, m, key, t).1
    ensures ExactAfter(c, m, key, t, events)
  {
    WaitRefills(c, m, key, t);
    var m' := AllowStep(c, m, key, t).0;
    var w := Wait(c, m', key);
    StepKeepsValid(c, m, Call(key, t), t);
    if Ordered(events, t) && AllBefore(events, t + w) {
      assert OutOfReach(m', key, t + w, events);
      DeniedUntil(c, m', events, key, t, t + w);
    }
  }

  /** In every run from an empty limiter, after every denial. */
  ghost predicate WaitAlwaysExact(c: Config) {
    forall before, key, t, events ::
      Ordered(before + [Call(key, t)], 0.0) && !AllowStep(c, Run(c, map[], before), key, t).1 ==>
        ExactAfter(c, Run(c, map[], before), key, t, events)
  }

  lemma {:induction false} EndsInOrder(events: seq<Event>, key: string, t: real, now: real)
    requires Ordered(events + [Call(key, t)], now)
    ensures Ordered(events, now) && EndTime(events, now) <= t
  {
    OrderedSplit(events, [Call(key, t)], now);
  }

  /** The reported wait is exact in all runs exactly when a token takes at most ten minutes. */
  lemma WaitAlwaysExactExactly(c: Config)
    requires c.rate > 0.0 && 1 <= c.burst
    ensures WaitAlwaysExact(c) <==> 1.0 <= 600.0 * c.rate
  {
    if 1.0 <= IDLE_THRESHOLD * c.rate {
      forall before, key, t, events |
        Ordered(before + [Call(key, t)], 0.0) && !AllowStep(c, Run(c, map[], before), key, t).1
        ensures ExactAfter(c, Run(c, map[], before), key, t, events)
      {
        EndsInOrder(before, key, t, 0.0);
        RunKeepsValid(c, map[], before, 0.0);
        WaitIsExact(c, Run(c, map[], before), key, t, events);
      }
    } else {
      WaitCutShort(c);
    }
  }

  /** The run in which a slow limiter forgets a denial: drain, be denied, clean up between ten minutes and the
      announced wait, call. The call is granted too early. */
  lemma WaitCutShort(c: Config)
    requires c.rate > 0.0 && 1 <= c.burst && 1.0 > 600.0 * c.rate
    ensures !WaitAlwaysExact(c)
  {
    var before := Repeat("k", 0.0, c.burst);
    var m := Run(c, map[], before);
    Drain(c, map[], "k", 0.0, c.burst);
    DrainTime(c, map[], "k", 0.0, c.burst);
    RepeatOrdered("k", 0.0, c.burst, [Call("k", 0.0)]);
    CallCost(c, m, "k", 0.0);
    var m' := AllowStep(c, m, "k", 0.0).0;
    var mid := Halfway(c.rate);
    var events := [Sweep(mid), Call("k", mid)];
    assert m'["k"] == Bucket(0.0, 0.0) && Wait(c, m', "k") == 1.0 / c.rate;
    assert "k" !in SweepStep(m', mid);
    assert events[1..] == [Call("k", mid)] && events[1..][1..] == [];
    assert Granted(c, SweepStep(m', mid), events[1..], "k", 0.0, mid) == 1;
    assert Granted(c, m', events, "k", 0.0, mid) == 1;
    assert Ordered(events, 0.0) && AllBefore(events, 0.0 + Wait(c, m', "k"));
    assert !ExactAfter(c, m, "k", 0.0, events);
  }

  /** A time between the idle threshold and the time one token takes. */
  lemma Halfway(rate: real) returns (mid: real)
    requires rate > 0.0 && 1.0 > IDLE_THRESHOLD * rate
    ensures IDLE_THRESHOLD < mid < 1.0 / rate
  {
    var whole := 1.0 / rate;
    assert (whole - IDLE_THRESHOLD) * rate == whole * rate - IDLE_THRESHOLD * rate;
    PositiveFactor(whole - IDLE_THRESHOLD, rate);
    mid := (IDLE_THRESHOLD + whole) / 2.0;
  }

  predicate Idle(events: seq<Event>, key: string, later: real) {
    forall i :: 0 <= i < |events| ==>
      (events[i].Call? ==> events[i].key != key && events[i].at <= later) &&
      (events[i].Sweep? ==> events[i].clock <= later)
  }

  /** Cleanups and calls of other keys never take tokens from a key, at any rate; where ten minutes refill a burst
      they do not give it any either. */
  lemma {:induction false} IdleKeepsLevel(c: Config, m: Buckets, events: seq<Event>, key: string, now: real,
                                          later: real)
    requires c.rate > 0.0 && 0 <= c.burst && Valid(c, m, now) && Ordered(events, now) && now <= later
    requires Idle(events, key, later)
    ensures Level(c, Run(c, m, events), key, later) >= Level(c, m, key, later)
    ensures c.burst as real <= 600.0 * c.rate ==>
              Level(c, Run(c, m, events), key, later) == Level(c, m, key, later)
    decreases |events|
  {
    if |events| > 0 {
      var e := events[0];
      var m', next := Step(c, m, e), TimeOf(e, now);
      StepKeepsValid(c, m, e, now);
      assert Valid(c, m, later) && next <= later;
      LevelBounds(c, m, key, later);
      if e.Sweep? && c.burst as real <= IDLE_THRESHOLD * c.rate {
        SweepKeepsLevel(c, m, e.clock, key, later);
      }
      IdleKeepsLevel(c, m', events[1..], key, next, later);
    }
  }

  lemma {:induction false} OrderedSplit(a: seq<Event>, b: seq<Event>, now: real)
    requires Ordered(a + b, now)
    ensures Ordered(a, now) && Ordered(b, EndTime(a, now))
    decreases |a|
  {
    if |a| == 0 {
      assert a + b == b;
    } else {
      assert (a + b)[1..] == a[1..] + b;
      OrderedSplit(a[1..], b, TimeOf(a[0], now));
    }
  }

  predicate AllBy(events: seq<Event>, later: real) {
    forall i :: 0 <= i < |events| ==> (if events[i].Call? then events[i].at else events[i].clock) <= later
  }

  /** A key that is owed a token by some time still finds one then, whatever cleanups and calls come first, as long
      as its own calls are denied. */
  lemma {:induction false} DeniedKeepsToken(c: Config, m: Buckets, events: seq<Event>, key: string, now: real,
                                            start: real, later: real)
    requires c.rate > 0.0 && 1 <= c.burst && Valid(c, m, now) && Ordered(events, now) && start <= now <= later
    requires AllBy(events, later) && Granted(c, m, events, key, start, later) == 0
    requires Level(c, m, key, later) >= 1.0
    ensures Level(c, Run(c, m, events), key, later) >= 1.0
    decreases |events|
  {
    if |events| > 0 {
      var e := events[0];
      var m', next := Step(c, m, e), TimeOf(e, now);
      StepKeepsValid(c, m, e, now);
      if e.Call? {
        StepPays(c, m, e, key, now);
        LevelGrows(c, m, key, next, later);
        LevelGrows(c, m', key, next, later);
      }
      assert AllBy(events[1..], later);
      DeniedKeepsToken(c, m', events[1..], key, next, start, later);
    }
  }

  /** The announced whole seconds are the fewest that cover the wait, and one at least. */
  lemma RetryAfterIsLeast(wait: real, secs: int)
    ensures RetryAfter(wait) >= 1 && RetryAfter(wait) as real >= wait
    ensures secs >= 1 && secs as real >= wait ==> secs >= RetryAfter(wait)
  {
  }

  /** Waiting the rounded-up Retry-After suffices at every rate: after a denial at t, any cleanups, calls of other
      keys and denied polls until then, a call at t + RetryAfter is granted. */
  lemma RetryAfterSuffices(c: Config, m: Buckets, key: string, t: real, events: seq<Event>)
    requires c.rate > 0.0 && 1 <= c.burst && Valid(c, m, t) && !AllowStep(c, m, key, t).1
    requires var m' := AllowStep(c, m, key, t).0;
      var later := t + RetryAfter(Wait(c, m', key)) as real;
      Ordered(events, t) && AllBy(events, later) && Granted(c, m', events, key, t, later) == 0
    ensures var m' := AllowStep(c, m, key, t).0;
      AllowStep(c, Run(c, m', events), key, t + RetryAfter(Wait(c, m', key)) as real).1
  {
    var m' := AllowStep(c, m, key, t).0;
    var w := Wait(c, m', key);
    var later := t + RetryAfter(w) as real;
    WaitRefills(c, m, key, t);
    StepKeepsValid(c, m, Call(key, t), t);
    LevelGrows(c, m', key, t, later);
    RefillAdds(c.rate, t, t + w, later);
    DeniedKeepsToken(c, m', events, key, t, t, later);
    CallCost(c, Run(c, m', events), key, later);
  }
}
