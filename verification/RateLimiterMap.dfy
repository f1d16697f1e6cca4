/** The per-key limiter map of the HTTP server, and when its eviction of idle keys is invisible.

    The limiter behind each key is the token bucket of module TokenBucket, full when new. */
module RateLimiterMap {
  import opened TokenBucket

  /** Seconds a key must be idle before Cleanup drops it. */
  const IDLE_SECONDS := 300.0

  datatype Entry = Entry(bucket: Bucket, lastSeen: real)

  type Limiters = map<string, Entry>

  datatype Event =
    | Request(key: string, at: real)
    | Cleanup(at: real)

  // ---------------------------------------------------------------- one step

  /** The entry GetLimiter hands out: a full bucket for an unknown key. */
  function Looked(limit: Limit, m: Limiters, key: string, now: real): Entry {
    Entry(if key in m then m[key].bucket else Full(limit, now), now)
  }

  function Charged(limit: Limit, m: Limiters, key: string, now: real): Limiters {
    m[key := Entry(After(limit, Looked(limit, m, key, now).bucket, now), now)]
  }

  function Kept(m: Limiters, now: real): Limiters {
    map k | k in m && !(m[k].lastSeen < now - IDLE_SECONDS) :: m[k]
  }

  // ---------------------------------------------------------------- whole runs

  /** The answers to the requests of a trace. With `evict` false, Cleanup does nothing. */
  function Answers(limit: Limit, m: Limiters, events: seq<Event>, evict: bool): seq<bool>
    decreases |events|
  {
    if events == [] then [] else
    match events[0]
    case Request(key, at) =>
      [Admits(limit, Looked(limit, m, key, at).bucket, at)]
      + Answers(limit, Charged(limit, m, key, at), events[1..], evict)
    case Cleanup(at) =>
      Answers(limit, if evict then Kept(m, at) else m, events[1..], evict)
  }

  predicate Ordered(events: seq<Event>) {
    events == [] || OrderedFrom(events, events[0].at)
  }

  predicate OrderedFrom(events: seq<Event>, now: real) {
    events == [] || (now <= events[0].at && OrderedFrom(events[1..], events[0].at))
  }

  // ---------------------------------------------------------------- eviction is invisible

  function Bottom(limit: Limit): real {
    if limit.burst < 0 then limit.burst as real else 0.0
  }

  /** A bucket as calls leave it: never below empty, never above full. */
  predicate Settled(limit: Limit, e: Entry, now: real) {
    && Bottom(limit) <= e.bucket.tokens <= limit.burst as real
    && e.bucket.last == e.lastSeen <= now
  }

  /** Evicting map `m` against never-evicting map `r`: what is missing from `m` is full by now. */
  ghost predicate Agrees(limit: Limit, m: Limiters, r: Limiters, now: real) {
    && (forall k | k in r :: Settled(limit, r[k], now))
    && (forall k | k in m :: k in r && m[k] == r[k])
    && (forall k | k in r && k !in m :: Level(limit, r[k].bucket, now) == limit.burst as real)
  }

  lemma LevelOnlyRises(limit: Limit, b: Bucket, now: real, later: real)
    requires limit.rate >= 0.0 && now <= later
    ensures Level(limit, b, now) <= Level(limit, b, later) <= limit.burst as real
  {
    EarnedGrows(limit.rate, now - b.last, later - b.last);
  }

  lemma IdleIsFull(limit: Limit, e: Entry, now: real)
    requires limit.rate >= 0.0 && limit.rate * 300.0 >= limit.burst as real
    requires Settled(limit, e, now) && e.lastSeen < now - IDLE_SECONDS
    ensures Level(limit, e.bucket, now) == limit.burst as real
  {
    EarnedIs(limit.rate, IDLE_SECONDS);
    EarnedGrows(limit.rate, IDLE_SECONDS, now - e.bucket.last);
    EarnedGrows(limit.rate, 0.0, now - e.bucket.last);
  }

  lemma AfterIsSettled(limit: Limit, b: Bucket, now: real)
    requires limit.rate >= 0.0 && b.last <= now && Bottom(limit) <= b.tokens <= limit.burst as real
    ensures Settled(limit, Entry(After(limit, b, now), now), now)
  {
    EarnedGrows(limit.rate, 0.0, now - b.last);
  }

  lemma AgreesLater(limit: Limit, m: Limiters, r: Limiters, now: real, later: real)
    requires limit.rate >= 0.0 && now <= later && Agrees(limit, m, r, now)
    ensures Agrees(limit, m, r, later)
  {
    forall k | k in r && k !in m
      ensures Level(limit, r[k].bucket, later) == limit.burst as real
    {
      LevelOnlyRises(limit, r[k].bucket, now, later);
    }
  }

  lemma RequestAgrees(limit: Limit, m: Limiters, r: Limiters, key: string, now: real)
    requires limit.rate >= 0.0 && Agrees(limit, m, r, now)
    ensures Admits(limit, Looked(limit, m, key, now).bucket, now)
        == Admits(limit, Looked(limit, r, key, now).bucket, now)
    ensures Agrees(limit, Charged(limit, m, key, now), Charged(limit, r, key, now), now)
  {
    var b, b' := Looked(limit, m, key, now).bucket, Looked(limit, r, key, now).bucket;
    assert Level(limit, Full(limit, now), now) == limit.burst as real;
    assert Level(limit, b, now) == Level(limit, b', now);
    AfterIsSettled(limit, b', now);
  }

  lemma CleanupAgrees(limit: Limit, m: Limiters, r: Limiters, now: real)
    requires limit.rate >= 0.0 && limit.rate * 300.0 >= limit.burst as real
    requires Agrees(limit, m, r, now)
    ensures Agrees(limit, Kept(m, now), r, now)
  {
    forall k | k in r && k !in Kept(m, now)
      ensures Level(limit, r[k].bucket, now) == limit.burst as real
    {
      if k in m {
        IdleIsFull(limit, r[k], now);
      }
    }
  }

  lemma {:induction false} AgreeingMapsAnswerAlike(limit: Limit, m: Limiters, r: Limiters, events: seq<Event>,
      now: real)
    requires limit.rate >= 0.0 && limit.rate * 300.0 >= limit.burst as real
    requires Agrees(limit, m, r, now) && OrderedFrom(events, now)
    ensures Answers(limit, m, events, true) == Answers(limit, r, events, false)
    decreases |events|
  {
    if events != [] {
      var at := events[0].at;
      AgreesLater(limit, m, r, now, at);
      match events[0]
      case Request(key, _) =>
        RequestAgrees(limit, m, r, key, at);
        AgreeingMapsAnswerAlike(limit, Charged(limit, m, key, at), Charged(limit, r, key, at), events[1..], at);
      case Cleanup(_) =>
        CleanupAgrees(limit, m, r, at);
        AgreeingMapsAnswerAlike(limit, Kept(m, at), r, events[1..], at);
    }
  }

  // ---------------------------------------------------------------- eviction is visible

  /** n simultaneous requests for one key. */
  function Burst(key: string, n: nat, at: real): seq<Event> {
    if n == 0 then [] else [Request(key, at)] + Burst(key, n - 1, at)
  }

  function Drained(limit: Limit, b: Bucket, n: nat, at: real): Bucket
    decreases n
  {
    if n == 0 then b else Drained(limit, After(limit, b, at), n - 1, at)
  }

  function BurstAnswers(limit: Limit, b: Bucket, n: nat, at: real): seq<bool>
    decreases n
  {
    if n == 0 then [] else [Admits(limit, b, at)] + BurstAnswers(limit, After(limit, b, at), n - 1, at)
  }

  function MapDrained(limit: Limit, m: Limiters, key: string, n: nat, at: real): Limiters {
    if n == 0 then m else m[key := Entry(Drained(limit, Looked(limit, m, key, at).bucket, n, at), at)]
  }

  lemma {:induction false} BurstRuns(limit: Limit, m: Limiters, key: string, n: nat, at: real, rest: seq<Event>,
      evict: bool)
    ensures Answers(limit, m, Burst(key, n, at) + rest, evict)
            == BurstAnswers(limit, Looked(limit, m, key, at).bucket, n, at)
               + Answers(limit, MapDrained(limit, m, key, n, at), rest, evict)
    decreases n
  {
    var events := Burst(key, n, at) + rest;
    if n == 0 {
      assert events == rest;
    } else {
      var c := Charged(limit, m, key, at);
      assert events[1..] == Burst(key, n - 1, at) + rest;
      BurstRuns(limit, c, key, n - 1, at, rest, evict);
      assert MapDrained(limit, c, key, n - 1, at) == MapDrained(limit, m, key, n, at);
    }
  }

  lemma LevelAtOnce(limit: Limit, b: Bucket, at: real)
    requires b.last == at
    ensures Level(limit, b, at) == if b.tokens > limit.burst as real then limit.burst as real else b.tokens
  {
    assert Earned(limit.rate, 0.0) == 0.0;
  }

  /** A level of at least n tokens serves n requests at once and keeps the rest. */
  lemma {:induction false} EnoughTokens(limit: Limit, b: Bucket, n: nat, at: real)
    requires n as real <= Level(limit, b, at)
    ensures BurstAnswers(limit, b, n, at) == seq(n, i => true)
    ensures n > 0 ==> Drained(limit, b, n, at) == Bucket(Level(limit, b, at) - n as real, at)
    decreases n
  {
    if n > 0 {
      LevelAtOnce(limit, After(limit, b, at), at);
      EnoughTokens(limit, After(limit, b, at), n - 1, at);
    }
  }

  /** Only a level of at least n tokens serves n requests at once. */
  lemma {:induction false} TooFewTokens(limit: Limit, b: Bucket, n: nat, at: real)
    requires BurstAnswers(limit, b, n, at) == seq(n, i => true) && n > 0
    ensures n as real <= Level(limit, b, at)
    decreases n
  {
    assert BurstAnswers(limit, b, n, at)[0];
    if n > 1 {
      LevelAtOnce(limit, After(limit, b, at), at);
      assert BurstAnswers(limit, After(limit, b, at), n - 1, at) == BurstAnswers(limit, b, n, at)[1..]
          == seq(n - 1, i => true);
      TooFewTokens(limit, After(limit, b, at), n - 1, at);
    }
  }

  lemma {:induction false} OrderedBurst(key: string, n: nat, at: real, rest: seq<Event>)
    requires OrderedFrom(rest, at)
    ensures OrderedFrom(Burst(key, n, at) + rest, at)
    decreases n
  {
    if n == 0 {
      assert Burst(key, 0, at) + rest == rest;
    } else {
      OrderedBurst(key, n - 1, at, rest);
      assert (Burst(key, n, at) + rest)[1..] == Burst(key, n - 1, at) + rest;
    }
  }

  /** Spend the whole burst, let the key be evicted at `c`, and spend a burst again. */
  function SpendEvictSpend(key: string, burst: nat, c: real): seq<Event> {
    Burst(key, burst, 0.0) + ([Cleanup(c)] + (Burst(key, burst, c) + []))
  }

  lemma SpendEvictSpendDiffers(limit: Limit, key: string, c: real)
    requires limit.rate >= 0.0 && limit.burst >= 1 && 300.0 < c
    requires limit.rate * c < limit.burst as real
    ensures Ordered(SpendEvictSpend(key, limit.burst, c))
    ensures Answers(limit, map[], SpendEvictSpend(key, limit.burst, c), true)
         != Answers(limit, map[], SpendEvictSpend(key, limit.burst, c), false)
  {
    var n: nat := limit.burst;
    var none: Limiters := map[];
    var again := Burst(key, n, c) + [];
    var rest := [Cleanup(c)] + again;
    OrderedBurst(key, n, c, []);
    OrderedBurst(key, n, 0.0, rest);
    assert SpendEvictSpend(key, n, c)[0].at == 0.0;

    LevelAtOnce(limit, Full(limit, 0.0), 0.0);
    EnoughTokens(limit, Full(limit, 0.0), n, 0.0);
    var spent := MapDrained(limit, none, key, n, 0.0);
    assert spent == map[key := Entry(Bucket(0.0, 0.0), 0.0)];
    assert Kept(spent, c) == none;

    LevelAtOnce(limit, Full(limit, c), c);
    EnoughTokens(limit, Full(limit, c), n, c);
    EarnedIs(limit.rate, c);
    assert Level(limit, Bucket(0.0, 0.0), c) == limit.rate * c;
    if BurstAnswers(limit, Bucket(0.0, 0.0), n, c) == seq(n, i => true) {
      TooFewTokens(limit, Bucket(0.0, 0.0), n, c);
    }
    assert rest[1..] == again;
    forall evict: bool
      ensures Answers(limit, none, SpendEvictSpend(key, n, c), evict)
           == BurstAnswers(limit, Full(limit, 0.0), n, 0.0)
              + BurstAnswers(limit, if evict then Full(limit, c) else Bucket(0.0, 0.0), n, c)
    {
      BurstRuns(limit, none, key, n, 0.0, rest, evict);
      var m := if evict then none else spent;
      BurstRuns(limit, m, key, n, c, [], evict);
      assert Answers(limit, MapDrained(limit, m, key, n, c), [], evict) == [];
    }
    var first := BurstAnswers(limit, Full(limit, 0.0), n, 0.0);
    var fresh', worn := BurstAnswers(limit, Full(limit, c), n, c), BurstAnswers(limit, Bucket(0.0, 0.0), n, c);
    assert (first + fresh')[|first|..] == fresh' && (first + worn)[|first|..] == worn;
  }

  /** Any schedule of Cleanup calls leaves every answer of every trace unchanged exactly when an
      idle period earns a whole burst. */
  lemma EvictionIsInvisibleIff(limit: Limit)
    requires limit.rate >= 0.0
    ensures (forall events: seq<Event> | Ordered(events) ::
        Answers(limit, map[], events, true) == Answers(limit, map[], events, false))
            <==> limit.rate * 300.0 >= limit.burst as real
  {
    if limit.rate * 300.0 >= limit.burst as real {
      forall events: seq<Event> | Ordered(events)
        ensures Answers(limit, map[], events, true) == Answers(limit, map[], events, false)
      {
        if events != [] {
          AgreeingMapsAnswerAlike(limit, map[], map[], events, events[0].at);
        }
      }
    } else {
      var c := JustAfterIdle(limit);
      SpendEvictSpendDiffers(limit, "k", c);
    }
  }

  /** A moment after the idle period at which the burst is still not earned back. */
  lemma JustAfterIdle(limit: Limit) returns (c: real)
    requires limit.rate >= 0.0 && limit.rate * 300.0 < limit.burst as real
    ensures 300.0 < c && limit.rate * c < limit.burst as real && limit.burst >= 1
  {
    RateGrows(limit.rate, 0.0, 300.0);
    if limit.rate == 0.0 {
      c := 301.0;
    } else {
      var slack := (limit.burst as real - limit.rate * 300.0) / (2.0 * limit.rate);
      c := 300.0 + slack;
      assert limit.rate * slack == (limit.burst as real - limit.rate * 300.0) / 2.0;
      assert limit.rate * c == limit.rate * 300.0 + limit.rate * slack;
    }
  }

  /** The bridge limiter and the default HTTP limiter lose nothing by evicting; the invoke limiter does. */
  lemma ConfiguredLimiters()
    ensures 1.0 * 300.0 >= 10.0 && 100.0 * 300.0 >= 200.0 && !((10.0 / 3600.0) * 300.0 >= 3.0)
  {}

  // ---------------------------------------------------------------- each key on its own

  /** When the requests of a key come. */
  function TimesOf(events: seq<Event>, key: string): seq<real> {
    if events == [] then []
    else (if events[0].Request? && events[0].key == key then [events[0].at] else []) + TimesOf(events[1..], key)
  }

  /** The answers that go to the requests of a key. */
  function AnswersTo(events: seq<Event>, answers: seq<bool>, key: string): seq<bool>
    decreases |events|
  {
    if events == [] || answers == [] then []
    else if events[0].Cleanup? then AnswersTo(events[1..], answers, key)
    else (if events[0].key == key then [answers[0]] else []) + AnswersTo(events[1..], answers[1..], key)
  }

  function Flags(calls: seq<Call>): (flags: seq<bool>)
    ensures |flags| == |calls| && forall i | 0 <= i < |calls| :: flags[i] == calls[i].allowed
  {
    seq(|calls|, i requires 0 <= i < |calls| => calls[i].allowed)
  }

  /** The answers of one bucket to calls at the given times. */
  function RunFrom(limit: Limit, b: Bucket, times: seq<real>): seq<bool>
    decreases |times|
  {
    if times == [] then [] else [Admits(limit, b, times[0])] + RunFrom(limit, After(limit, b, times[0]), times[1..])
  }

  lemma {:induction false} RunIsHistory(limit: Limit, created: real, past: seq<real>, times: seq<real>)
    ensures Flags(History(limit, created, past)) + RunFrom(limit, BucketAfter(limit, created, past), times)
         == Flags(History(limit, created, past + times))
    decreases |times|
  {
    if times == [] {
      assert past + times == past;
    } else {
      var past' := past + [times[0]];
      assert past'[..|past|] == past;
      assert past + times == past' + times[1..];
      RunIsHistory(limit, created, past', times[1..]);
      assert Flags(History(limit, created, past'))
          == Flags(History(limit, created, past)) + [Admits(limit, BucketAfter(limit, created, past), times[0])];
    }
  }

  /** Other keys' requests do not touch a key's bucket. */
  lemma {:induction false} KeyRunsAlone(limit: Limit, m: Limiters, events: seq<Event>, key: string)
    ensures var times := TimesOf(events, key);
            AnswersTo(events, Answers(limit, m, events, false), key)
            == if times == [] then []
               else RunFrom(limit, if key in m then m[key].bucket else Full(limit, times[0]), times)
    decreases |events|
  {
    if events != [] {
      match events[0]
      case Cleanup(_) =>
        KeyRunsAlone(limit, m, events[1..], key);
        assert TimesOf(events, key) == [] + TimesOf(events[1..], key) == TimesOf(events[1..], key);
      case Request(k, at) =>
        var c := Charged(limit, m, k, at);
        KeyRunsAlone(limit, c, events[1..], key);
        var answers := Answers(limit, m, events, false);
        var times, later := TimesOf(events, key), TimesOf(events[1..], key);
        assert answers[1..] == Answers(limit, c, events[1..], false);
        if k == key {
          assert times == [at] + later && times[1..] == later;
          var b := Looked(limit, m, k, at).bucket;
          assert RunFrom(limit, b, times) == [Admits(limit, b, at)] + RunFrom(limit, After(limit, b, at), later);
        } else {
          assert times == [] + later == later;
        }
    }
  }

  /** When an idle period earns a whole burst, each key is answered exactly as the windows over its own requests
      dictate, from its first request on, whatever other keys ask for and whenever Cleanup comes. */
  lemma EachKeyIsLimited(limit: Limit, events: seq<Event>, key: string)
    requires limit.rate >= 0.0 && limit.rate * 300.0 >= limit.burst as real && Ordered(events)
    ensures var times := TimesOf(events, key);
            times != [] ==>
              && Faithful(limit, times[0], History(limit, times[0], times))
              && (forall i | 0 <= i < |times| :: History(limit, times[0], times)[i].at == times[i])
              && AnswersTo(events, Answers(limit, map[], events, true), key) == Flags(History(limit, times[0], times))
  {
    var times := TimesOf(events, key);
    if times != [] {
      AgreeingMapsAnswerAlike(limit, map[], map[], events, events[0].at);
      KeyRunsAlone(limit, map[], events, key);
      RunIsHistory(limit, times[0], [], times);
      HistoryIsFaithful(limit, times[0], times);
      HistoryTimes(limit, times[0], times);
      assert [] + times == times && Flags(History(limit, times[0], [])) == [];
    }
  }

  lemma {:induction false} HistoryTimes(limit: Limit, created: real, times: seq<real>)
    ensures forall i | 0 <= i < |times| :: History(limit, created, times)[i].at == times[i]
  {
    if times != [] {
      HistoryTimes(limit, created, times[..|times| - 1]);
    }
  }

  // ---------------------------------------------------------------- the limiter map itself

  class IPRateLimiter {
    var limiters: Limiters
    const limit: Limit

    constructor (rate: real, burst: int)
      ensures limit == Limit(rate, burst) && limiters == map[]
    {
      limit := Limit(rate, burst);
      limiters := map[];
    }

    /** Touches or creates the entry of a key. */
    method GetLimiter(ip: string, now: real) returns (entry: Entry)
      modifies this
      ensures entry == Looked(limit, old(limiters), ip, now) && entry.lastSeen == now
      ensures entry.bucket == if ip in old(limiters) then old(limiters)[ip].bucket else Bucket(limit.burst as real, now)
      ensures limiters == old(limiters)[ip := entry]
    {
      if ip !in limiters {
        entry := Entry(Full(limit, now), now);
      } else {
        entry := limiters[ip].(lastSeen := now);
      }
      limiters := limiters[ip := entry];
    }

    /** What the middleware does with a request: look the limiter up and ask it. */
    method Serve(ip: string, now: real) returns (ok: bool)
      modifies this
      ensures ok == Admits(limit, Looked(limit, old(limiters), ip, now).bucket, now)
      ensures limiters == Charged(limit, old(limiters), ip, now)
    {
      var entry := GetLimiter(ip, now);
      ok := Admits(limit, entry.bucket, now);
      limiters := limiters[ip := entry.(bucket := After(limit, entry.bucket, now))];
    }

    method Cleanup(now: real)
      modifies this
      ensures limiters == Kept(old(limiters), now)
      ensures forall k :: k in limiters <==> k in old(limiters) && now - old(limiters)[k].lastSeen <= 300.0
      ensures forall k | k in limiters :: limiters[k] == old(limiters)[k]
    {
      var threshold := now - IDLE_SECONDS;
      var keys := limiters.Keys;
      while keys != {}
        invariant keys <= old(limiters).Keys
        invariant limiters == map k | k in old(limiters) && (k in keys || !(old(limiters)[k].lastSeen < threshold)) ::
            old(limiters)[k]
        decreases |keys|
      {
        var ip :| ip in keys;
        if limiters[ip].lastSeen < threshold {
          limiters := limiters - {ip};
        }
        keys := keys - {ip};
      }
    }
  }
}
