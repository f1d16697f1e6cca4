/** The token bucket of the signaling hub, and what it means over a whole call history. */
module TokenBucket {

  /** A refill rate in tokens per second and a capacity. */
  datatype Limit = Limit(rate: real, burst: int)

  /** Tokens left after the last call, and the time of that call. */
  datatype Bucket = Bucket(tokens: real, last: real)

  /** One call of `allow`: when it came and what it answered. */
  datatype Call = Call(at: real, allowed: bool)

  function Full(limit: Limit, now: real): Bucket {
    Bucket(limit.burst as real, now)
  }

  /** Tokens the bucket adds for a span of time. */
  function Earned(rate: real, span: real): real {
    span * rate
  }

  lemma EarnedAdds(rate: real, a: real, b: real, c: real)
    ensures Earned(rate, c - a) == Earned(rate, b - a) + Earned(rate, c - b)
  {}

  lemma EarnedGrows(rate: real, a: real, b: real)
    requires rate >= 0.0 && a <= b
    ensures Earned(rate, a) <= Earned(rate, b)
  {}

  lemma EarnedIs(rate: real, span: real)
    ensures Earned(rate, span) == rate * span
  {}

  /** The tokens present at `now`, before a message is charged. */
  function Level(limit: Limit, b: Bucket, now: real): real {
    var t := b.tokens + Earned(limit.rate, now - b.last);
    if t > limit.burst as real then limit.burst as real else t
  }

  predicate Admits(limit: Limit, b: Bucket, now: real) {
    Level(limit, b, now) >= 1.0
  }

  function After(limit: Limit, b: Bucket, now: real): Bucket {
    var level := Level(limit, b, now);
    Bucket(if Admits(limit, b, now) then level - 1.0 else level, now)
  }

  // ---------------------------------------------------------------- the window specification

  /** How many calls of a stretch of the history were allowed. */
  function Allowed(calls: seq<Call>): nat {
    if calls == [] then 0
    else Allowed(calls[..|calls| - 1]) + if calls[|calls| - 1].allowed then 1 else 0
  }

  /** Instant 0 is the creation of the bucket, instant i is the i-th call. */
  function Instant(created: real, calls: seq<Call>, i: nat): real
    requires i <= |calls|
  {
    if i == 0 then created else calls[i - 1].at
  }

  /** Messages allowed at or after instant i. */
  function Since(calls: seq<Call>, i: nat): nat
    requires i <= |calls|
  {
    Allowed(calls[if i == 0 then 0 else i - 1..])
  }

  /** What the window opened at instant i still has room for at `now`. */
  function Headroom(limit: Limit, created: real, calls: seq<Call>, i: nat, now: real): real
    requires i <= |calls|
  {
    limit.burst as real + limit.rate * (now - Instant(created, calls, i)) - Since(calls, i) as real
  }

  /** One more message at `now` keeps every window, opened at creation, at an earlier call or
      at `now` itself, within burst + rate * length. No tokens appear here. */
  ghost predicate WindowsPermit(limit: Limit, created: real, calls: seq<Call>, now: real) {
    && 1 <= limit.burst
    && forall i: nat | i <= |calls| :: 1.0 <= Headroom(limit, created, calls, i, now)
  }

  /** Every answer in the history is the one the windows dictate. */
  ghost predicate Faithful(limit: Limit, created: real, calls: seq<Call>) {
    forall k | 0 <= k < |calls| ::
      calls[k].allowed == WindowsPermit(limit, created, calls[..k], calls[k].at)
  }

  /** `level` is the least headroom over all windows. */
  ghost predicate IsLeastHeadroom(limit: Limit, created: real, calls: seq<Call>, level: real, now: real) {
    && (forall i: nat | i <= |calls| :: level <= Headroom(limit, created, calls, i, now))
    && (exists i: nat | i <= |calls| :: level == Headroom(limit, created, calls, i, now))
  }

  lemma HeadroomGrows(limit: Limit, created: real, calls: seq<Call>, i: nat, a: real, b: real)
    requires i <= |calls|
    ensures Headroom(limit, created, calls, i, b) == Headroom(limit, created, calls, i, a) + Earned(limit.rate, b - a)
  {
    var from := Instant(created, calls, i);
    EarnedAdds(limit.rate, from, a, b);
    EarnedIs(limit.rate, a - from);
    EarnedIs(limit.rate, b - from);
  }

  lemma HeadroomAfterCall(limit: Limit, created: real, calls: seq<Call>, c: Call, i: nat)
    requires i <= |calls|
    ensures Headroom(limit, created, calls + [c], i, c.at)
            == Headroom(limit, created, calls, i, c.at) - if c.allowed then 1.0 else 0.0
  {
    var k := if i == 0 then 0 else i - 1;
    var rest := (calls + [c])[k..];
    assert rest == calls[k..] + [c];
    assert rest[..|rest| - 1] == calls[k..];
  }

  lemma HeadroomOfNewest(limit: Limit, created: real, calls: seq<Call>, c: Call)
    ensures Headroom(limit, created, calls + [c], |calls| + 1, c.at)
            == limit.burst as real - if c.allowed then 1.0 else 0.0
  {
    var rest := (calls + [c])[|calls|..];
    assert rest == [c];
    assert Allowed(rest[..0]) == 0;
    assert Allowed(rest) == if c.allowed then 1 else 0;
  }

  lemma RefillTracksWindows(limit: Limit, created: real, calls: seq<Call>, tokens: real, last: real, now: real)
    requires IsLeastHeadroom(limit, created, calls, tokens, last)
    ensures IsLeastHeadroom(limit, created, calls, tokens + Earned(limit.rate, now - last), now)
  {
    var earned := Earned(limit.rate, now - last);
    forall i: nat | i <= |calls|
      ensures Headroom(limit, created, calls, i, now) == Headroom(limit, created, calls, i, last) + earned
    {
      HeadroomGrows(limit, created, calls, i, last, now);
    }
  }

  lemma ChargeTracksWindows(limit: Limit, created: real, calls: seq<Call>, t: real, ok: bool, now: real)
    requires IsLeastHeadroom(limit, created, calls, t, now)
    ensures IsLeastHeadroom(limit, created, calls + [Call(now, ok)],
                            (if t > limit.burst as real then limit.burst as real else t) - if ok then 1.0 else 0.0, now)
  {
    var c := Call(now, ok);
    var calls' := calls + [c];
    var charge := if ok then 1.0 else 0.0;
    var level := if t > limit.burst as real then limit.burst as real else t;
    forall i: nat | i <= |calls|
      ensures Headroom(limit, created, calls', i, now) == Headroom(limit, created, calls, i, now) - charge
    {
      HeadroomAfterCall(limit, created, calls, c, i);
    }
    HeadroomOfNewest(limit, created, calls, c);
    forall i: nat | i <= |calls'|
      ensures level - charge <= Headroom(limit, created, calls', i, now)
    {
      if i <= |calls| {
        assert t <= Headroom(limit, created, calls, i, now);
      }
    }
    if t > limit.burst as real {
      assert level - charge == Headroom(limit, created, calls', |calls| + 1, now);
    } else {
      var m: nat :| m <= |calls| && t == Headroom(limit, created, calls, m, now);
      assert level - charge == Headroom(limit, created, calls', m, now);
    }
  }

  lemma LeastHeadroomDecides(limit: Limit, created: real, calls: seq<Call>, t: real, now: real)
    requires IsLeastHeadroom(limit, created, calls, t, now)
    ensures (1.0 <= t && 1 <= limit.burst) <==> WindowsPermit(limit, created, calls, now)
  {}

  /** The heart of the refinement: a bucket holding the least headroom answers as the windows
      dictate and still holds the least headroom afterwards. Any clock readings, any rate, any burst. */
  lemma BucketTracksWindows(limit: Limit, created: real, calls: seq<Call>, b: Bucket, now: real)
    requires IsLeastHeadroom(limit, created, calls, b.tokens, b.last)
    ensures Admits(limit, b, now) <==> WindowsPermit(limit, created, calls, now)
    ensures IsLeastHeadroom(limit, created, calls + [Call(now, Admits(limit, b, now))],
                            After(limit, b, now).tokens, now)
  {
    var t := b.tokens + Earned(limit.rate, now - b.last);
    RefillTracksWindows(limit, created, calls, b.tokens, b.last, now);
    LeastHeadroomDecides(limit, created, calls, t, now);
    ChargeTracksWindows(limit, created, calls, t, Admits(limit, b, now), now);
  }

  lemma FaithfulSnoc(limit: Limit, created: real, calls: seq<Call>, c: Call)
    requires Faithful(limit, created, calls)
    requires c.allowed == WindowsPermit(limit, created, calls, c.at)
    ensures Faithful(limit, created, calls + [c])
  {
    var calls' := calls + [c];
    forall k | 0 <= k < |calls'|
      ensures calls'[k].allowed == WindowsPermit(limit, created, calls'[..k], calls'[k].at)
    {
      assert calls'[..k] == if k < |calls| then calls[..k] else calls;
    }
  }

  /** The bucket after a run of calls, and the history the run leaves behind. */
  function BucketAfter(limit: Limit, created: real, times: seq<real>): Bucket {
    if times == [] then Full(limit, created)
    else After(limit, BucketAfter(limit, created, times[..|times| - 1]), times[|times| - 1])
  }

  function History(limit: Limit, created: real, times: seq<real>): (calls: seq<Call>)
    ensures |calls| == |times|
  {
    if times == [] then []
    else
      var init, now := times[..|times| - 1], times[|times| - 1];
      History(limit, created, init) + [Call(now, Admits(limit, BucketAfter(limit, created, init), now))]
  }

  lemma FullIsLeastHeadroom(limit: Limit, created: real)
    ensures IsLeastHeadroom(limit, created, [], limit.burst as real, created)
  {
    assert Headroom(limit, created, [], 0, created) == limit.burst as real;
  }

  /** Over any run the bucket's answers are those of the window specification. */
  lemma {:induction false} HistoryIsFaithful(limit: Limit, created: real, times: seq<real>)
    ensures Faithful(limit, created, History(limit, created, times))
    ensures IsLeastHeadroom(limit, created, History(limit, created, times),
                            BucketAfter(limit, created, times).tokens, BucketAfter(limit, created, times).last)
  {
    if times == [] {
      FullIsLeastHeadroom(limit, created);
    } else {
      var init, now := times[..|times| - 1], times[|times| - 1];
      HistoryIsFaithful(limit, created, init);
      StepIsFaithful(limit, created, History(limit, created, init), BucketAfter(limit, created, init), now);
    }
  }

  lemma StepIsFaithful(limit: Limit, created: real, calls: seq<Call>, b: Bucket, now: real)
    requires IsLeastHeadroom(limit, created, calls, b.tokens, b.last) && Faithful(limit, created, calls)
    ensures Faithful(limit, created, calls + [Call(now, Admits(limit, b, now))])
    ensures IsLeastHeadroom(limit, created, calls + [Call(now, Admits(limit, b, now))], After(limit, b, now).tokens,
        now)
  {
    BucketTracksWindows(limit, created, calls, b, now);
    FaithfulSnoc(limit, created, calls, Call(now, Admits(limit, b, now)));
  }

  /** The windows leave no other answers possible. */
  lemma {:induction false} FaithfulIsUnique(limit: Limit, created: real, calls: seq<Call>, calls': seq<Call>)
    requires Faithful(limit, created, calls) && Faithful(limit, created, calls')
    requires |calls| == |calls'| && forall k | 0 <= k < |calls| :: calls[k].at == calls'[k].at
    ensures calls == calls'
  {
    if calls != [] {
      var n := |calls| - 1;
      assert forall k | 0 <= k < n :: calls[..n][..k] == calls[..k] && calls'[..n][..k] == calls'[..k];
      FaithfulIsUnique(limit, created, calls[..n], calls'[..n]);
      assert calls[n] == calls'[n];
      assert calls == calls[..n] + [calls[n]] && calls' == calls'[..n] + [calls'[n]];
    }
  }

  // ---------------------------------------------------------------- sliding windows

  /** Messages allowed between two times. */
  function AllowedBetween(calls: seq<Call>, from: real, to: real): nat {
    if calls == [] then 0
    else
      var c := calls[|calls| - 1];
      AllowedBetween(calls[..|calls| - 1], from, to) + if c.allowed && from <= c.at <= to then 1 else 0
  }

  predicate Ordered(calls: seq<Call>) {
    forall i, j | 0 <= i < j < |calls| :: calls[i].at <= calls[j].at
  }

  lemma {:induction false} BetweenIsAtMostSuffix(calls: seq<Call>, from: real, to: real, k: nat)
    requires k <= |calls|
    requires forall i | 0 <= i < k :: calls[i].at < from
    ensures AllowedBetween(calls, from, to) <= Allowed(calls[k..])
  {
    if calls != [] {
      var init := calls[..|calls| - 1];
      if k == |calls| {
        BetweenIsAtMostSuffix(init, from, to, k - 1);
        assert init[k - 1..] == [] == calls[k..];
      } else {
        BetweenIsAtMostSuffix(init, from, to, k);
        assert calls[k..][..|calls[k..]| - 1] == init[k..];
      }
    }
  }

  function FirstAtOrAfter(calls: seq<Call>, from: real): (k: nat)
    ensures k <= |calls|
    ensures forall i | 0 <= i < k :: calls[i].at < from
    ensures k < |calls| ==> from <= calls[k].at
  {
    if calls == [] || from <= calls[0].at then 0 else
      var k := FirstAtOrAfter(calls[1..], from);
      assert forall i | 0 < i < k + 1 :: calls[i] == calls[1..][i - 1];
      k + 1
  }

  lemma RateGrows(rate: real, a: real, b: real)
    requires rate >= 0.0 && a <= b
    ensures rate * a <= rate * b
  {}

  lemma RateNotNegative(rate: real, from: real, to: real)
    requires rate >= 0.0 && from <= to
    ensures rate * (to - from) >= 0.0
  {}

  /** A window with room left holds one message less than a longer one may. */
  lemma RoomInWindow(limit: Limit, created: real, calls: seq<Call>, i: nat, now: real, from: real, to: real)
    requires limit.rate >= 0.0 && i <= |calls| && from <= Instant(created, calls, i) && now <= to
    requires 1.0 <= Headroom(limit, created, calls, i, now)
    ensures Since(calls, i) as real + 1.0 <= limit.burst as real + limit.rate * (to - from)
  {
    LongerEarnsMore(limit.rate, Instant(created, calls, i), now, from, to);
  }

  lemma LongerEarnsMore(rate: real, a: real, b: real, from: real, to: real)
    requires rate >= 0.0 && from <= a && b <= to
    ensures rate * (b - a) <= rate * (to - from)
  {
    RateGrows(rate, b - a, to - from);
  }

  /** An allowed call closes every earlier window within its bound. */
  lemma NewestAllowed(limit: Limit, created: real, calls: seq<Call>, now: real, from: real, to: real)
    requires limit.rate >= 0.0 && from <= now <= to
    requires WindowsPermit(limit, created, calls, now)
    ensures AllowedBetween(calls, from, to) as real + 1.0 <= limit.burst as real + limit.rate * (to - from)
  {
    hide Headroom;
    var k := FirstAtOrAfter(calls, from);
    BetweenIsAtMostSuffix(calls, from, to, k);
    if k < |calls| {
      RoomInWindow(limit, created, calls, k + 1, now, from, to);
    } else {
      RateNotNegative(limit.rate, from, to);
      assert Allowed(calls[k..]) == 0;
    }
  }

  lemma NothingAllowed(limit: Limit, from: real, to: real)
    requires limit.rate >= 0.0 && limit.burst >= 0 && from <= to
    ensures 0.0 <= limit.burst as real + limit.rate * (to - from)
  {
    var rate, earned := limit.rate, limit.rate * (to - from);
    assert earned >= 0.0 by { RateNotNegative(rate, from, to); }
  }

  lemma FaithfulPrefix(limit: Limit, created: real, calls: seq<Call>)
    requires calls != [] && Faithful(limit, created, calls)
    ensures var n := |calls| - 1;
            Faithful(limit, created, calls[..n])
            && calls[n].allowed == WindowsPermit(limit, created, calls[..n], calls[n].at)
  {
    var n := |calls| - 1;
    assert forall k | 0 <= k < n :: calls[..n][..k] == calls[..k];
  }

  /** Between any two times at most burst + rate * length messages pass. */
  lemma {:induction false} SlidingWindow(limit: Limit, created: real, calls: seq<Call>, from: real, to: real)
    requires limit.rate >= 0.0 && limit.burst >= 0 && from <= to
    requires Ordered(calls) && Faithful(limit, created, calls)
    ensures AllowedBetween(calls, from, to) as real <= limit.burst as real + limit.rate * (to - from)
  {
    hide Headroom, WindowsPermit, Faithful;
    if calls == [] {
      NothingAllowed(limit, from, to);
    } else {
      var n := |calls| - 1;
      FaithfulPrefix(limit, created, calls);
      SlidingWindow(limit, created, calls[..n], from, to);
      if calls[n].allowed && from <= calls[n].at <= to {
        NewestAllowed(limit, created, calls[..n], calls[n].at, from, to);
      }
    }
  }

  // ---------------------------------------------------------------- the limiter itself

  class MessageLimiter {
    var tokens: real
    var maxBurst: real
    var rate: real
    var lastTime: real
    ghost const limit: Limit
    ghost const created: real
    ghost var calls: seq<Call>

    ghost predicate Valid()
      reads this
    {
      && rate == limit.rate && maxBurst == limit.burst as real
      && IsLeastHeadroom(limit, created, calls, tokens, lastTime)
      && Faithful(limit, created, calls)
    }

    constructor (rate: real, burst: int, now: real)
      ensures Valid()
      ensures limit == Limit(rate, burst) && created == now && calls == []
      ensures Bucket(tokens, lastTime) == Full(limit, now)
    {
      this.tokens := burst as real;
      this.maxBurst := burst as real;
      this.rate := rate;
      this.lastTime := now;
      this.limit := Limit(rate, burst);
      this.created := now;
      this.calls := [];
      new;
      FullIsLeastHeadroom(limit, created);
    }

    method Allow(now: real) returns (ok: bool)
      requires Valid()
      modifies this
      ensures Valid()
      ensures calls == old(calls) + [Call(now, ok)]
      ensures ok <==> WindowsPermit(limit, created, old(calls), now)
      ensures Bucket(tokens, lastTime) == After(limit, Bucket(old(tokens), old(lastTime)), now)
    {
      ghost var b := Bucket(tokens, lastTime);
      EarnedIs(limit.rate, now - b.last);
      hide Earned, Headroom, IsLeastHeadroom, WindowsPermit, Faithful;
      BucketTracksWindows(limit, created, calls, b, now);
      FaithfulSnoc(limit, created, calls, Call(now, Admits(limit, b, now)));
      var elapsed := now - lastTime;
      lastTime := now;
      assert elapsed * rate == Earned(limit.rate, now - b.last);
      tokens := tokens + elapsed * rate;
      if tokens > maxBurst {
        tokens := maxBurst;
      }
      ok := !(tokens < 1.0);
      if ok {
        tokens := tokens - 1.0;
      }
      calls := calls + [Call(now, ok)];
    }
  }
}
