/** The lockout after failed one-time codes, shared by email verification and password reset. */
module OtpLockout {

  datatype Config = Config(maxFailedAttempts: int, blockDuration: real)

  datatype Tracker = Tracker(count: nat, lastFail: real)

  type Trackers = map<string, Tracker>

  /** What the store knows about the submitted code. */
  datatype Lookup = NotFound | Expired | Good

  datatype Attempt = Attempt(email: string, at: real, lookup: Lookup)

  datatype Outcome = Malformed | Blocked | Failed | CodeExpired | Accepted

  // ---------------------------------------------------------------- one attempt

  predicate IsBlocked(cfg: Config, m: Trackers, email: string, now: real) {
    email in m && m[email].count >= cfg.maxFailedAttempts && now - m[email].lastFail < cfg.blockDuration
  }

  /** The trackers after the blocked test: a tracker that has gone quiet is dropped. */
  function Refreshed(cfg: Config, m: Trackers, email: string, now: real): Trackers {
    if email in m && now - m[email].lastFail >= cfg.blockDuration then m - {email} else m
  }

  function WithFailure(m: Trackers, email: string, now: real): Trackers {
    m[email := Tracker((if email in m then m[email].count else 0) + 1, now)]
  }

  function OutcomeOf(cfg: Config, m: Trackers, a: Attempt): Outcome {
    if IsBlocked(cfg, m, a.email, a.at) then Blocked
    else match a.lookup
      case NotFound => Failed
      case Expired => CodeExpired
      case Good => Accepted
  }

  function Step(cfg: Config, m: Trackers, a: Attempt): Trackers {
    var m' := Refreshed(cfg, m, a.email, a.at);
    match OutcomeOf(cfg, m, a)
    case Failed => WithFailure(m', a.email, a.at)
    case Accepted => m' - {a.email}
    case _ => m'
  }

  // ---------------------------------------------------------------- whole runs

  function TrackersAfter(cfg: Config, m: Trackers, attempts: seq<Attempt>): Trackers {
    if attempts == [] then m
    else Step(cfg, TrackersAfter(cfg, m, attempts[..|attempts| - 1]), attempts[|attempts| - 1])
  }

  function OutcomeAt(cfg: Config, m: Trackers, attempts: seq<Attempt>, k: nat): Outcome
    requires k < |attempts|
  {
    OutcomeOf(cfg, TrackersAfter(cfg, m, attempts[..k]), attempts[k])
  }

  predicate Happens(cfg: Config, m: Trackers, attempts: seq<Attempt>, email: string, k: nat, what: Outcome)
    requires k < |attempts|
  {
    attempts[k].email == email && OutcomeAt(cfg, m, attempts, k) == what
  }

  /** Failures recorded for the email by attempts i to j. */
  function FailuresBetween(cfg: Config, m: Trackers, attempts: seq<Attempt>, email: string, i: nat, j: nat): nat
    requires i <= j <= |attempts|
    decreases j
  {
    if i == j then 0
    else FailuresBetween(cfg, m, attempts, email, i, j - 1)
         + if Happens(cfg, m, attempts, email, j - 1, Failed) then 1 else 0
  }

  ghost predicate NoSuccess(cfg: Config, m: Trackers, attempts: seq<Attempt>, email: string, i: nat, j: nat)
    requires i <= j <= |attempts|
  {
    forall k: nat | i <= k < j :: !Happens(cfg, m, attempts, email, k, Accepted)
  }

  /** Attempts i to j all come within [start, start + length). */
  predicate Within(attempts: seq<Attempt>, i: nat, j: nat, start: real, length: real)
    requires i <= j <= |attempts|
  {
    forall k | i <= k < j :: start <= attempts[k].at < start + length
  }

  predicate Ordered(attempts: seq<Attempt>) {
    forall i, j | 0 <= i < j < |attempts| :: attempts[i].at <= attempts[j].at
  }

  /** The failures one block period can hold: the first failure is always recorded. */
  function Limit(cfg: Config): nat {
    if cfg.maxFailedAttempts < 1 then 1 else cfg.maxFailedAttempts
  }

  /** Inside a window shorter than the block the tracker knows at least every failure of the window. */
  ghost predicate TracksWindow(m: Trackers, email: string, failures: nat, start: real) {
    failures > 0 ==> email in m && m[email].count >= failures && m[email].lastFail >= start
  }

  lemma StepTracksWindow(cfg: Config, m: Trackers, a: Attempt, email: string, failures: nat, start: real)
    requires start <= a.at < start + cfg.blockDuration
    requires TracksWindow(m, email, failures, start) && failures <= Limit(cfg)
    requires !(a.email == email && OutcomeOf(cfg, m, a) == Accepted)
    ensures var failures' := failures + if a.email == email && OutcomeOf(cfg, m, a) == Failed then 1 else 0;
            TracksWindow(Step(cfg, m, a), email, failures', start) && failures' <= Limit(cfg)
  {}

  /** With no success in between, a window shorter than the block holds at most the limit of failures. */
  lemma {:induction false} BlockWindow(cfg: Config, m: Trackers, attempts: seq<Attempt>, email: string, i: nat,
      j: nat, start: real)
    requires i <= j <= |attempts|
    requires Within(attempts, i, j, start, cfg.blockDuration) && NoSuccess(cfg, m, attempts, email, i, j)
    ensures FailuresBetween(cfg, m, attempts, email, i, j) <= Limit(cfg)
    ensures TracksWindow(TrackersAfter(cfg, m, attempts[..j]), email, FailuresBetween(cfg, m, attempts, email, i, j),
        start)
    decreases j
  {
    if i < j {
      var k: nat := j - 1;
      BlockWindow(cfg, m, attempts, email, i, k, start);
      assert attempts[..j][..k] == attempts[..k];
      assert !Happens(cfg, m, attempts, email, k, Accepted);
      StepTracksWindow(cfg, TrackersAfter(cfg, m, attempts[..k]), attempts[k], email,
                       FailuresBetween(cfg, m, attempts, email, i, k), start);
    }
  }

  lemma {:induction false} FailuresAdd(cfg: Config, m: Trackers, attempts: seq<Attempt>, email: string, i: nat,
      k: nat, j: nat)
    requires i <= k <= j <= |attempts|
    ensures FailuresBetween(cfg, m, attempts, email, i, j)
         == FailuresBetween(cfg, m, attempts, email, i, k) + FailuresBetween(cfg, m, attempts, email, k, j)
    decreases j
  {
    if k < j {
      FailuresAdd(cfg, m, attempts, email, i, k, j - 1);
    }
  }

  function FirstFrom(attempts: seq<Attempt>, i: nat, j: nat, from: real): (k: nat)
    requires i <= j <= |attempts|
    ensures i <= k <= j
    ensures forall n | i <= n < k :: attempts[n].at < from
    ensures k < j ==> from <= attempts[k].at
    decreases j - i
  {
    if i == j || from <= attempts[i].at then i else FirstFrom(attempts, i + 1, j, from)
  }

  /** Whole block periods in a span of time. */
  function Periods(cfg: Config, span: real): int
    requires cfg.blockDuration > 0.0
  {
    (span / cfg.blockDuration).Floor
  }

  lemma OnePeriodLess(cfg: Config, span: real)
    requires cfg.blockDuration > 0.0 && span >= 0.0
    ensures Periods(cfg, span) >= 0
    ensures Periods(cfg, span - cfg.blockDuration) == Periods(cfg, span) - 1
  {
    var q := span / cfg.blockDuration;
    assert q * cfg.blockDuration == span;
    Quotient(span - cfg.blockDuration, cfg.blockDuration, q - 1.0);
    if q < 0.0 {
      Product(q, cfg.blockDuration);
    }
  }

  lemma Quotient(a: real, b: real, q: real)
    requires b != 0.0 && q * b == a
    ensures a / b == q
  {}

  lemma Product(a: real, b: real)
    requires a < 0.0 && b > 0.0
    ensures a * b < 0.0
  {}

  /** With no success in between, a span of time holds at most the limit once per block period begun. */
  lemma {:induction false} FailuresOverTime(cfg: Config, m: Trackers, attempts: seq<Attempt>, email: string,
                                            i: nat, j: nat, start: real, span: real)
    requires cfg.blockDuration > 0.0 && span >= 0.0
    requires i <= j <= |attempts| && Ordered(attempts) && NoSuccess(cfg, m, attempts, email, i, j)
    requires forall k | i <= k < j :: start <= attempts[k].at <= start + span
    ensures FailuresBetween(cfg, m, attempts, email, i, j) <= Limit(cfg) * (Periods(cfg, span) + 1)
    decreases Periods(cfg, span)
  {
    OnePeriodLess(cfg, span);
    var k := FirstFrom(attempts, i, j, start + cfg.blockDuration);
    FailuresAdd(cfg, m, attempts, email, i, k, j);
    BlockWindow(cfg, m, attempts, email, i, k, start);
    var n := Periods(cfg, span);
    assert Limit(cfg) * (n + 1) == Limit(cfg) * n + Limit(cfg);
    if k < j {
      assert start + cfg.blockDuration <= attempts[k].at <= start + span;
      FailuresOverTime(cfg, m, attempts, email, k, j, start + cfg.blockDuration, span - cfg.blockDuration);
    } else {
      assert Limit(cfg) * n >= 0;
    }
  }

  /** The configured number of failures bounds every window shorter than the block. */
  ghost predicate LimitIsConfigured(cfg: Config) {
    forall attempts: seq<Attempt>, email: string, i: nat, j: nat, start: real
      | i <= j <= |attempts| && Within(attempts, i, j, start, cfg.blockDuration)
          && NoSuccess(cfg, map[], attempts, email, i, j) ::
      FailuresBetween(cfg, map[], attempts, email, i, j) <= cfg.maxFailedAttempts
  }

  lemma WindowHasLength(attempts: seq<Attempt>, i: nat, j: nat, start: real, length: real)
    requires i < j <= |attempts| && Within(attempts, i, j, start, length)
    ensures length > 0.0
  {
    assert start <= attempts[i].at < start + length;
  }

  /** It does so exactly when at least one failure is configured to be let through, or
      none is and the block has no duration. */
  lemma LimitIsConfiguredIff(cfg: Config)
    ensures LimitIsConfigured(cfg)
        <==> cfg.maxFailedAttempts >= 1 || (cfg.maxFailedAttempts == 0 && cfg.blockDuration <= 0.0)
  {
    if cfg.maxFailedAttempts >= 1 || (cfg.maxFailedAttempts == 0 && cfg.blockDuration <= 0.0) {
      forall attempts: seq<Attempt>, email: string, i: nat, j: nat, start: real
        | i <= j <= |attempts| && Within(attempts, i, j, start, cfg.blockDuration)
            && NoSuccess(cfg, map[], attempts, email, i, j)
        ensures FailuresBetween(cfg, map[], attempts, email, i, j) <= cfg.maxFailedAttempts
      {
        BlockWindow(cfg, map[], attempts, email, i, j, start);
        if i < j {
          WindowHasLength(attempts, i, j, start, cfg.blockDuration);
        }
      }
    } else {
      var one := [Attempt("", 0.0, NotFound)];
      assert one[..0] == [];
      assert Happens(cfg, map[], one, "", 0, Failed);
      assert NoSuccess(cfg, map[], one, "", 0, 0);
      if cfg.maxFailedAttempts == 0 {
        assert Within(one, 0, 1, 0.0, cfg.blockDuration) && NoSuccess(cfg, map[], one, "", 0, 1);
        assert FailuresBetween(cfg, map[], one, "", 0, 1) == 1;
      } else {
        assert Within(one, 0, 0, 0.0, cfg.blockDuration);
        assert FailuresBetween(cfg, map[], one, "", 0, 0) == 0;
      }
    }
  }

  // ---------------------------------------------------------------- what decides an attempt

  /** The last failure of the email before attempt k, or -1. */
  function LastFailure(cfg: Config, attempts: seq<Attempt>, email: string, k: nat): (j: int)
    requires k <= |attempts|
    ensures -1 <= j < k
    ensures j >= 0 ==> Happens(cfg, map[], attempts, email, j, Failed)
    ensures forall n: nat | j < n < k :: !Happens(cfg, map[], attempts, email, n, Failed)
  {
    if k == 0 then -1
    else if Happens(cfg, map[], attempts, email, k - 1, Failed) then k - 1
    else LastFailure(cfg, attempts, email, k - 1)
  }

  /** Attempt p comes after the block of the failure before it. */
  predicate Late(cfg: Config, attempts: seq<Attempt>, email: string, p: nat)
    requires p < |attempts|
  {
    var j := LastFailure(cfg, attempts, email, p);
    j >= 0 && attempts[p].at - attempts[j].at >= cfg.blockDuration
  }

  /** Attempt i is a failure, and before attempt k the email had no success and no late attempt since. */
  ghost predicate Open(cfg: Config, attempts: seq<Attempt>, email: string, i: nat, k: nat)
    requires k <= |attempts|
  {
    && i < k && Happens(cfg, map[], attempts, email, i, Failed)
    && NoSuccess(cfg, map[], attempts, email, i + 1, k)
    && forall p | i < p < k && attempts[p].email == email :: !Late(cfg, attempts, email, p)
  }

  lemma OpenNext(cfg: Config, attempts: seq<Attempt>, email: string, i: nat, k: nat)
    requires k < |attempts|
    ensures Open(cfg, attempts, email, i, k + 1) <==>
        || (i == k && Happens(cfg, map[], attempts, email, k, Failed))
        || (Open(cfg, attempts, email, i, k)
            && !Happens(cfg, map[], attempts, email, k, Accepted)
            && (attempts[k].email == email ==> !Late(cfg, attempts, email, k)))
  {
    hide Happens, Late;
  }

  /** The failures from attempt i on, before attempt k. */
  function FailuresFrom(cfg: Config, attempts: seq<Attempt>, email: string, i: nat, k: nat): nat
    requires k <= |attempts|
  {
    if i <= k then FailuresBetween(cfg, map[], attempts, email, i, k) else 0
  }

  /** The tracker counts the failures since the first open one, and dates the last. */
  ghost predicate TrackerIs(cfg: Config, m: Trackers, attempts: seq<Attempt>, email: string, k: nat)
    requires k <= |attempts|
  {
    && (email in m <==> exists i :: Open(cfg, attempts, email, i, k))
    && (email in m ==>
          && LastFailure(cfg, attempts, email, k) >= 0
          && m[email].lastFail == attempts[LastFailure(cfg, attempts, email, k)].at
          && (forall i | Open(cfg, attempts, email, i, k) :: FailuresFrom(cfg, attempts, email, i, k) <= m[email].count)
          && exists i :: Open(cfg, attempts, email, i, k) && FailuresFrom(cfg, attempts, email, i, k) == m[email].count)
  }

  /** How open failures carry over attempt k, which is followed by attempt n. */
  ghost predicate Carries(cfg: Config, attempts: seq<Attempt>, email: string, k: nat, n: nat)
    requires k < n <= |attempts|
  {
    forall i: nat :: Open(cfg, attempts, email, i, n) <==>
        || (i == k && Happens(cfg, map[], attempts, email, k, Failed))
        || (Open(cfg, attempts, email, i, k)
            && !Happens(cfg, map[], attempts, email, k, Accepted)
            && (attempts[k].email == email ==> !Late(cfg, attempts, email, k)))
  }

  lemma OpenFailuresCarry(cfg: Config, attempts: seq<Attempt>, email: string, k: nat, n: nat)
    requires n == k + 1 <= |attempts|
    ensures Carries(cfg, attempts, email, k, n)
  {
    forall i: nat
      ensures Open(cfg, attempts, email, i, n) <==>
          || (i == k && Happens(cfg, map[], attempts, email, k, Failed))
          || (Open(cfg, attempts, email, i, k)
              && !Happens(cfg, map[], attempts, email, k, Accepted)
              && (attempts[k].email == email ==> !Late(cfg, attempts, email, k)))
    {
      OpenNext(cfg, attempts, email, i, k);
    }
  }

  lemma OneOutcome(cfg: Config, attempts: seq<Attempt>, email: string, k: nat)
    requires k < |attempts|
    ensures !(Happens(cfg, map[], attempts, email, k, Failed) && Happens(cfg, map[], attempts, email, k, Accepted))
  {}

  lemma OpenIsEarlier(cfg: Config, attempts: seq<Attempt>, email: string, i: nat, k: nat)
    requires k <= |attempts| && Open(cfg, attempts, email, i, k)
    ensures i < k
  {}

  lemma FailuresNext(cfg: Config, attempts: seq<Attempt>, email: string, i: nat, k: nat, n: nat)
    requires i <= k && n == k + 1 <= |attempts|
    ensures FailuresFrom(cfg, attempts, email, i, n)
         == FailuresFrom(cfg, attempts, email, i, k) + if Happens(cfg, map[], attempts, email, k, Failed) then 1 else 0
    ensures FailuresFrom(cfg, attempts, email, k, k) == 0
  {}

  /** An attempt that fails: one more open failure, after the others or on its own. */
  lemma TrackerAfterFailure(cfg: Config, m: Trackers, m': Trackers, attempts: seq<Attempt>, email: string, k: nat,
      n: nat)
    requires n == k + 1 <= |attempts|
    requires Carries(cfg, attempts, email, k, n) && TrackerIs(cfg, m, attempts, email, k)
    requires attempts[k].email == email && Happens(cfg, map[], attempts, email, k, Failed)
    requires email in m'
      && m'[email].count == (if email in m && !Late(cfg, attempts, email, k) then m[email].count else 0) + 1
      && m'[email].lastFail == attempts[k].at
    ensures TrackerIs(cfg, m', attempts, email, n)
  {
    OneOutcome(cfg, attempts, email, k);
    assert LastFailure(cfg, attempts, email, n) == k;
    forall i: nat | Open(cfg, attempts, email, i, n)
      ensures FailuresFrom(cfg, attempts, email, i, n) <= m'[email].count
    {
      if i != k {
        OpenIsEarlier(cfg, attempts, email, i, k);
      }
      FailuresNext(cfg, attempts, email, i, k, n);
    }
    hide Open, Happens, Late, NoSuccess, FailuresFrom, LastFailure;
    assert Open(cfg, attempts, email, k, n);
    FailuresNext(cfg, attempts, email, k, k, n);
    if email in m && !Late(cfg, attempts, email, k) {
      var i :| Open(cfg, attempts, email, i, k) && FailuresFrom(cfg, attempts, email, i, k) == m[email].count;
      OpenIsEarlier(cfg, attempts, email, i, k);
      FailuresNext(cfg, attempts, email, i, k, n);
      assert Open(cfg, attempts, email, i, n);
    }
  }

  /** An attempt that records no failure leaves the open ones, or takes them all away. */
  lemma TrackerAfterOther(cfg: Config, m: Trackers, m': Trackers, attempts: seq<Attempt>, email: string, k: nat, n: nat)
    requires n == k + 1 <= |attempts|
    requires Carries(cfg, attempts, email, k, n) && TrackerIs(cfg, m, attempts, email, k)
    requires !Happens(cfg, map[], attempts, email, k, Failed)
    requires var gone := Happens(cfg, map[], attempts, email, k, Accepted)
               || (attempts[k].email == email && Late(cfg, attempts, email, k));
             if gone then email !in m' else (email in m <==> email in m') && (email in m ==> m'[email] == m[email])
    ensures TrackerIs(cfg, m', attempts, email, n)
  {
    assert LastFailure(cfg, attempts, email, n) == LastFailure(cfg, attempts, email, k);
    hide Open, Happens, Late, NoSuccess, LastFailure, FailuresFrom;
    forall i: nat | Open(cfg, attempts, email, i, k)
      ensures FailuresFrom(cfg, attempts, email, i, n) == FailuresFrom(cfg, attempts, email, i, k)
    {
      OpenIsEarlier(cfg, attempts, email, i, k);
      FailuresNext(cfg, attempts, email, i, k, n);
    }
  }

  lemma TrackerNext(cfg: Config, attempts: seq<Attempt>, email: string, k: nat, n: nat)
    requires n == k + 1 <= |attempts|
    requires TrackerIs(cfg, TrackersAfter(cfg, map[], attempts[..k]), attempts, email, k)
    ensures TrackerIs(cfg, TrackersAfter(cfg, map[], attempts[..n]), attempts, email, n)
  {
    var m, a := TrackersAfter(cfg, map[], attempts[..k]), attempts[k];
    assert attempts[..n][..k] == attempts[..k];
    OpenFailuresCarry(cfg, attempts, email, k, n);
    LateMeansQuiet(cfg, m, attempts, email, k);
    hide Open, Carries, Late, FailuresFrom, LastFailure, TrackerIs;
    var m' := Step(cfg, m, a);
    if Happens(cfg, map[], attempts, email, k, Failed) {
      TrackerAfterFailure(cfg, m, m', attempts, email, k, n);
    } else {
      TrackerAfterOther(cfg, m, m', attempts, email, k, n);
    }
  }

  lemma LateMeansQuiet(cfg: Config, m: Trackers, attempts: seq<Attempt>, email: string, k: nat)
    requires k < |attempts| && TrackerIs(cfg, m, attempts, email, k)
    ensures email in m ==> (Late(cfg, attempts, email, k) <==> attempts[k].at - m[email].lastFail >= cfg.blockDuration)
  {}

  lemma {:induction false} TrackerTellsHistory(cfg: Config, attempts: seq<Attempt>, email: string, k: nat)
    requires k <= |attempts|
    ensures TrackerIs(cfg, TrackersAfter(cfg, map[], attempts[..k]), attempts, email, k)
    decreases k
  {
    if k > 0 {
      TrackerTellsHistory(cfg, attempts, email, k - 1);
      TrackerNext(cfg, attempts, email, k - 1, k);
    }
  }

  /** What an attempt meets, by the history alone: it is blocked if and only if it is not late and some earlier
      failure, with no success and no late attempt since, has the configured number of failures from it on. If not,
      an unknown code fails, an expired one does not, and a good one is accepted. */
  lemma LockoutDecision(cfg: Config, attempts: seq<Attempt>, k: nat)
    requires k < |attempts|
    ensures var a := attempts[k];
            var blocked := !Late(cfg, attempts, a.email, k)
              && exists i :: Open(cfg, attempts, a.email, i, k)
                             && FailuresFrom(cfg, attempts, a.email, i, k) >= cfg.maxFailedAttempts;
            OutcomeAt(cfg, map[], attempts, k)
            == if blocked then Blocked
               else if a.lookup == NotFound then Failed
               else if a.lookup == Expired then CodeExpired
               else Accepted
  {
    var a, m := attempts[k], TrackersAfter(cfg, map[], attempts[..k]);
    TrackerTellsHistory(cfg, attempts, a.email, k);
    LateMeansQuiet(cfg, m, attempts, a.email, k);
    hide Open, Late;
  }

  /** So one less than the configured number of unknown codes never blocks a good one. */
  lemma FewFailuresDoNotBlock(cfg: Config, attempts: seq<Attempt>, k: nat)
    requires k < |attempts| && attempts[k].lookup == Good
    requires FailuresBetween(cfg, map[], attempts, attempts[k].email, 0, k) < cfg.maxFailedAttempts
    ensures OutcomeAt(cfg, map[], attempts, k) == Accepted
  {
    var email := attempts[k].email;
    LockoutDecision(cfg, attempts, k);
    forall i | Open(cfg, attempts, email, i, k)
      ensures FailuresFrom(cfg, attempts, email, i, k) < cfg.maxFailedAttempts
    {
      OpenIsEarlier(cfg, attempts, email, i, k);
      FailuresAdd(cfg, map[], attempts, email, 0, i, k);
    }
  }

  // ---------------------------------------------------------------- the service

  const MIN_PASSWORD_BYTES := 8

  class OtpGuard {
    const cfg: Config
    var otpFailures: Trackers

    constructor (cfg: Config)
      ensures this.cfg == cfg && otpFailures == map[]
    {
      this.cfg := cfg;
      this.otpFailures := map[];
    }

    method IsOTPBlocked(email: string, now: real) returns (blocked: bool)
      modifies this
      ensures blocked == IsBlocked(cfg, old(otpFailures), email, now)
      ensures otpFailures == Refreshed(cfg, old(otpFailures), email, now)
    {
      if email in otpFailures {
        var tracker := otpFailures[email];
        if tracker.count >= cfg.maxFailedAttempts && now - tracker.lastFail < cfg.blockDuration {
          return true;
        }
        if now - tracker.lastFail >= cfg.blockDuration {
          otpFailures := otpFailures - {email};
        }
      }
      blocked := false;
    }

    method RecordOTPFailure(email: string, now: real)
      modifies this
      ensures otpFailures == WithFailure(old(otpFailures), email, now)
    {
      var tracker := if email in otpFailures then otpFailures[email] else Tracker(0, 0.0);
      otpFailures := otpFailures[email := Tracker(tracker.count + 1, now)];
    }

    method ClearOTPFailures(email: string)
      modifies this
      ensures otpFailures == old(otpFailures) - {email}
    {
      otpFailures := otpFailures - {email};
    }

    /** The part both operations share, once their input is well formed. */
    method TryCode(email: string, lookup: Lookup, now: real) returns (outcome: Outcome)
      modifies this
      ensures outcome == OutcomeOf(cfg, old(otpFailures), Attempt(email, now, lookup))
      ensures otpFailures == Step(cfg, old(otpFailures), Attempt(email, now, lookup))
    {
      var blocked := IsOTPBlocked(email, now);
      if blocked {
        return Blocked;
      }
      if lookup == NotFound {
        RecordOTPFailure(email, now);
        return Failed;
      }
      if lookup == Expired {
        return CodeExpired;
      }
      ClearOTPFailures(email);
      outcome := Accepted;
    }

    method VerifyEmail(email: string, code: string, lookup: Lookup, now: real) returns (outcome: Outcome)
      modifies this
      ensures outcome == Malformed <==> email == "" || code == ""
      ensures outcome == Malformed ==> otpFailures == old(otpFailures)
      ensures outcome != Malformed ==>
                && outcome == OutcomeOf(cfg, old(otpFailures), Attempt(email, now, lookup))
                && otpFailures == Step(cfg, old(otpFailures), Attempt(email, now, lookup))
    {
      if email == "" || code == "" {
        return Malformed;
      }
      outcome := TryCode(email, lookup, now);
    }

    method ResetPassword(email: string, code: string, passwordBytes: nat, lookup: Lookup, now: real)
        returns (outcome: Outcome)
      modifies this
      ensures outcome == Malformed <==> email == "" || code == "" || passwordBytes < 8
      ensures outcome == Malformed ==> otpFailures == old(otpFailures)
      ensures outcome != Malformed ==>
                && outcome == OutcomeOf(cfg, old(otpFailures), Attempt(email, now, lookup))
                && otpFailures == Step(cfg, old(otpFailures), Attempt(email, now, lookup))
    {
      if email == "" || code == "" || passwordBytes == 0 {
        return Malformed;
      }
      if passwordBytes < MIN_PASSWORD_BYTES {
        return Malformed;
      }
      outcome := TryCode(email, lookup, now);
    }
  }
}
