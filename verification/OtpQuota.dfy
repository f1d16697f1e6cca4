/** How many one-time codes an email can be sent within an hour, with expired codes being swept. */
module OtpQuota {
  import opened Timestamps

  const HOUR := 3600.0

  /** The configured validity of a code and the configured codes per hour. */
  datatype Config = Config(codeExpiry: real, maxPerHour: int)

  /** A row of email_verifications. Timestamps are stored as whole seconds. */
  datatype Row = Row(email: string, createdAt: int, expiresAt: int)

  datatype Event =
    | Send(email: string, at: real)
    | Sweep(at: real)

  // ---------------------------------------------------------------- the table

  function CountRecent(rows: seq<Row>, email: string, since: int): nat {
    if rows == [] then 0
    else
      var r := rows[|rows| - 1];
      CountRecent(rows[..|rows| - 1], email, since) + if r.email == email && r.createdAt >= since then 1 else 0
  }

  function Unexpired(rows: seq<Row>, now: int): seq<Row> {
    if rows == [] then []
    else
      var r := rows[|rows| - 1];
      Unexpired(rows[..|rows| - 1], now) + if r.expiresAt < now then [] else [r]
  }

  predicate Grants(cfg: Config, rows: seq<Row>, email: string, at: real) {
    CountRecent(rows, email, Stamp(at - HOUR)) < cfg.maxPerHour
  }

  function Issued(cfg: Config, email: string, at: real): Row {
    Row(email, Stamp(at), Stamp(at + cfg.codeExpiry))
  }

  function Step(cfg: Config, rows: seq<Row>, e: Event, sweeping: bool): seq<Row> {
    match e
    case Send(email, at) => if Grants(cfg, rows, email, at) then rows + [Issued(cfg, email, at)] else rows
    case Sweep(at) => if sweeping then Unexpired(rows, Stamp(at)) else rows
  }

  // ---------------------------------------------------------------- whole runs

  /** The table after a trace. With `sweeping` false the sweeps delete nothing. */
  function RowsAfter(cfg: Config, rows: seq<Row>, events: seq<Event>, sweeping: bool): seq<Row> {
    if events == [] then rows
    else Step(cfg, RowsAfter(cfg, rows, events[..|events| - 1], sweeping), events[|events| - 1], sweeping)
  }

  /** Event k hands a code to the email. */
  predicate Codes(cfg: Config, rows: seq<Row>, events: seq<Event>, sweeping: bool, email: string, k: nat)
    requires k < |events|
  {
    && events[k].Send? && events[k].email == email
    && Grants(cfg, RowsAfter(cfg, rows, events[..k], sweeping), email, events[k].at)
  }

  /** Codes handed to the email by events i to j. */
  function CodesBetween(cfg: Config, rows: seq<Row>, events: seq<Event>, sweeping: bool, email: string, i: nat,
      j: nat): nat
    requires i <= j <= |events|
    decreases j
  {
    if i == j then 0
    else CodesBetween(cfg, rows, events, sweeping, email, i, j - 1)
         + if Codes(cfg, rows, events, sweeping, email, j - 1) then 1 else 0
  }

  function SweepsBetween(events: seq<Event>, i: nat, j: nat): nat
    requires i <= j <= |events|
    decreases j
  {
    if i == j then 0
    else SweepsBetween(events, i, j - 1) + if events[j - 1].Sweep? then 1 else 0
  }

  predicate WithinAnHour(events: seq<Event>, i: nat, j: nat, start: real)
    requires i <= j <= |events|
  {
    forall k | i <= k < j :: start <= events[k].at <= start + 3600.0
  }

  predicate Ordered(events: seq<Event>) {
    forall i, j | 0 <= i < j < |events| :: events[i].at <= events[j].at
  }

  function Quota(cfg: Config): nat {
    if cfg.maxPerHour < 0 then 0 else cfg.maxPerHour
  }

  lemma {:induction false} EarlierCutCountsMore(rows: seq<Row>, email: string, early: int, late: int)
    requires early <= late
    ensures CountRecent(rows, email, late) <= CountRecent(rows, email, early)
  {
    if rows != [] {
      EarlierCutCountsMore(rows[..|rows| - 1], email, early, late);
    }
  }

  lemma CountSnoc(rows: seq<Row>, r: Row, email: string, since: int)
    ensures CountRecent(rows + [r], email, since)
         == CountRecent(rows, email, since) + if r.email == email && r.createdAt >= since then 1 else 0
  {
    assert (rows + [r])[..|rows|] == rows;
  }

  lemma PrefixStep(cfg: Config, rows: seq<Row>, events: seq<Event>, sweeping: bool, k: nat)
    requires k < |events|
    ensures RowsAfter(cfg, rows, events[..k + 1], sweeping)
         == Step(cfg, RowsAfter(cfg, rows, events[..k], sweeping), events[k], sweeping)
  {
    assert events[..k + 1][..k] == events[..k];
  }

  /** Events k of the hour: the count since `start` rises with every code, and no code is sent at the quota. */
  lemma CodeIsCounted(cfg: Config, rows: seq<Row>, events: seq<Event>, sweeping: bool, email: string, k: nat,
      start: real)
    requires k < |events| && start <= events[k].at <= start + 3600.0
    requires !(sweeping && events[k].Sweep?)
    ensures var before := CountRecent(RowsAfter(cfg, rows, events[..k], sweeping), email, Stamp(start));
            var after := CountRecent(RowsAfter(cfg, rows, events[..k + 1], sweeping), email, Stamp(start));
            if Codes(cfg, rows, events, sweeping, email, k) then after == before + 1 <= Quota(cfg) else after >= before
  {
    var table, e := RowsAfter(cfg, rows, events[..k], sweeping), events[k];
    PrefixStep(cfg, rows, events, sweeping, k);
    if e.Send? {
      CountSnoc(table, Issued(cfg, e.email, e.at), email, Stamp(start));
      EarlierCutCountsMore(table, email, Stamp(e.at - HOUR), Stamp(start));
    }
  }

  function Repeated(q: nat, times: nat): nat {
    if times == 0 then 0 else Repeated(q, times - 1) + q
  }

  lemma {:induction false} RepeatedIsProduct(q: nat, times: nat)
    ensures Repeated(q, times) == q * times
  {
    if times > 0 {
      RepeatedIsProduct(q, times - 1);
      assert q * times == q * (times - 1) + q;
    }
  }

  lemma SweepHandsOutNothing(cfg: Config, rows: seq<Row>, events: seq<Event>, sweeping: bool, email: string, k: nat)
    requires k < |events| && events[k].Sweep?
    ensures !Codes(cfg, rows, events, sweeping, email, k)
  {}

  /** Codes since the last sweep are still in the table, so they stay within the quota. */
  lemma {:induction false} CodesByEpoch(cfg: Config, rows: seq<Row>, events: seq<Event>, sweeping: bool, email: string,
                                        i: nat, j: nat, start: real) returns (latest: nat)
    requires i <= j <= |events| && WithinAnHour(events, i, j, start)
    ensures latest <= Quota(cfg)
    ensures latest <= CountRecent(RowsAfter(cfg, rows, events[..j], sweeping), email, Stamp(start))
    ensures CodesBetween(cfg, rows, events, sweeping, email, i, j)
         <= Repeated(Quota(cfg), if sweeping then SweepsBetween(events, i, j) else 0) + latest
    decreases j
  {
    hide RowsAfter, CountRecent, Codes;
    if i == j {
      latest := 0;
    } else {
      var k: nat := j - 1;
      latest := CodesByEpoch(cfg, rows, events, sweeping, email, i, k, start);
      if sweeping && events[k].Sweep? {
        SweepHandsOutNothing(cfg, rows, events, sweeping, email, k);
        latest := 0;
      } else {
        CodeIsCounted(cfg, rows, events, sweeping, email, k, start);
        if Codes(cfg, rows, events, sweeping, email, k) {
          latest := latest + 1;
        }
      }
    }
  }

  /** In any hour an email gets at most the quota once for the hour and once more per sweep in it.
      Any table to start from, any configuration. */
  lemma HourlyQuota(cfg: Config, rows: seq<Row>, events: seq<Event>, email: string, i: nat, j: nat, start: real)
    requires i <= j <= |events| && WithinAnHour(events, i, j, start)
    ensures CodesBetween(cfg, rows, events, true, email, i, j) <= Quota(cfg) * (1 + SweepsBetween(events, i, j))
  {
    var latest := CodesByEpoch(cfg, rows, events, true, email, i, j, start);
    RepeatedIsProduct(Quota(cfg), 1 + SweepsBetween(events, i, j));
  }

  // ---------------------------------------------------------------- codes that outlive the hour

  /** Both tables count alike for every cut a later request can ask about. */
  ghost predicate CountsAlike(rows: seq<Row>, rows': seq<Row>, now: int) {
    forall email: string, since: int | since >= now - 3600 ::
      CountRecent(rows, email, since) == CountRecent(rows', email, since)
  }

  predicate OutliveTheHour(rows: seq<Row>) {
    forall r | r in rows :: r.expiresAt >= r.createdAt + 3600
  }

  lemma {:induction false} SweptRowsAreNotRecent(rows: seq<Row>, now: int, email: string, since: int)
    requires OutliveTheHour(rows) && since >= now - 3600
    ensures CountRecent(Unexpired(rows, now), email, since) == CountRecent(rows, email, since)
    ensures OutliveTheHour(Unexpired(rows, now))
  {
    if rows != [] {
      var init, r := rows[..|rows| - 1], rows[|rows| - 1];
      SweptRowsAreNotRecent(init, now, email, since);
      if r.expiresAt < now {
        assert Unexpired(rows, now) == Unexpired(init, now);
      } else {
        CountSnoc(Unexpired(init, now), r, email, since);
      }
      assert r in rows;
    }
  }

  lemma {:induction false} SweepingChangesNothing(cfg: Config, events: seq<Event>, k: nat)
    requires cfg.codeExpiry >= 3600.0 && Ordered(events) && k <= |events|
    ensures OutliveTheHour(RowsAfter(cfg, [], events[..k], true))
    ensures k > 0 ==>
        CountsAlike(RowsAfter(cfg, [], events[..k], true), RowsAfter(cfg, [], events[..k], false),
            Stamp(events[k - 1].at))
    ensures k == 0 ==> RowsAfter(cfg, [], events[..k], true) == RowsAfter(cfg, [], events[..k], false)
    decreases k
  {
    if k > 0 {
      SweepingChangesNothing(cfg, events, k - 1);
      PrefixStep(cfg, [], events, true, k - 1);
      PrefixStep(cfg, [], events, false, k - 1);
      var table, table', e := RowsAfter(cfg, [], events[..k - 1], true), RowsAfter(cfg, [], events[..k - 1], false),
          events[k - 1];
      assert CountsAlike(table, table', Stamp(e.at));
      forall email: string, since: int | since >= Stamp(e.at) - 3600
        ensures CountRecent(Step(cfg, table, e, true), email, since)
            == CountRecent(Step(cfg, table', e, false), email, since)
      {
        match e
        case Send(to, at) =>
          CountSnoc(table, Issued(cfg, to, at), email, since);
          CountSnoc(table', Issued(cfg, to, at), email, since);
        case Sweep(at) =>
          SweptRowsAreNotRecent(table, Stamp(at), email, since);
      }
      if e.Sweep? {
        SweptRowsAreNotRecent(table, Stamp(e.at), "", Stamp(e.at));
      }
    }
  }

  /** When a code lives at least an hour, sweeping changes no decision. */
  lemma SweepsAreInvisible(cfg: Config, events: seq<Event>, email: string, k: nat)
    requires cfg.codeExpiry >= 3600.0 && Ordered(events) && k < |events|
    ensures Codes(cfg, [], events, true, email, k) == Codes(cfg, [], events, false, email, k)
  {
    SweepingChangesNothing(cfg, events, k);
  }

  lemma {:induction false} SameCodes(cfg: Config, events: seq<Event>, email: string, i: nat, j: nat)
    requires cfg.codeExpiry >= 3600.0 && Ordered(events) && i <= j <= |events|
    ensures CodesBetween(cfg, [], events, true, email, i, j) == CodesBetween(cfg, [], events, false, email, i, j)
    decreases j
  {
    if i < j {
      SameCodes(cfg, events, email, i, j - 1);
      SweepsAreInvisible(cfg, events, email, j - 1);
    }
  }

  // ---------------------------------------------------------------- exactly when the quota is hourly

  /** No hour of any run hands an email more than the configured number of codes. */
  ghost predicate QuotaIsHourly(cfg: Config) {
    forall events: seq<Event>, email: string, i: nat, j: nat, start: real
      | i <= j <= |events| && Ordered(events) && WithinAnHour(events, i, j, start) ::
      CodesBetween(cfg, [], events, true, email, i, j) <= Quota(cfg)
  }

  function Sends(email: string, n: nat, at: real): (s: seq<Event>)
    ensures |s| == n && forall k | 0 <= k < n :: s[k] == Send(email, at)
  {
    seq(n, k => Send(email, at))
  }

  /** Use the quota up, wait for the sweep, ask once more: all within one hour. */
  function SpendSweepAsk(cfg: Config, email: string): seq<Event> {
    Sends(email, Quota(cfg), 0.0) + [Sweep(HOUR), Send(email, HOUR)]
  }

  lemma {:induction false} SpendingTheQuota(cfg: Config, email: string, events: seq<Event>, k: nat)
    requires events == SpendSweepAsk(cfg, email) && k <= Quota(cfg)
    ensures RowsAfter(cfg, [], events[..k], true) == seq(k, n => Issued(cfg, email, 0.0))
    ensures CodesBetween(cfg, [], events, true, email, 0, k) == k
    decreases k
  {
    if k > 0 {
      SpendingTheQuota(cfg, email, events, k - 1);
      PrefixStep(cfg, [], events, true, k - 1);
      var table := RowsAfter(cfg, [], events[..k - 1], true);
      CountIsAtMostLength(table, email, Stamp(0.0 - HOUR));
      assert events[k - 1] == Send(email, 0.0);
      assert Codes(cfg, [], events, true, email, k - 1);
      assert RowsAfter(cfg, [], events[..k - 1 + 1], true) == table + [Issued(cfg, email, 0.0)];
    }
  }

  lemma {:induction false} CountIsAtMostLength(rows: seq<Row>, email: string, since: int)
    ensures CountRecent(rows, email, since) <= |rows|
  {
    if rows != [] {
      CountIsAtMostLength(rows[..|rows| - 1], email, since);
    }
  }

  lemma {:induction false} AllExpired(rows: seq<Row>, now: int)
    requires forall r | r in rows :: r.expiresAt < now
    ensures Unexpired(rows, now) == []
  {
    if rows != [] {
      assert rows[|rows| - 1] in rows;
      AllExpired(rows[..|rows| - 1], now);
    }
  }

  lemma SpendSweepAskIsAnHour(cfg: Config, email: string)
    ensures var events := SpendSweepAsk(cfg, email);
            Ordered(events) && WithinAnHour(events, 0, |events|, 0.0)
  {}

  lemma SweptQuotaIsSpentTwice(cfg: Config, email: string)
    requires cfg.codeExpiry < 3600.0 && cfg.maxPerHour > 0
    ensures var events := SpendSweepAsk(cfg, email);
      && Ordered(events) && WithinAnHour(events, 0, |events|, 0.0)
      && CodesBetween(cfg, [], events, true, email, 0, |events|) == cfg.maxPerHour + 1
  {
    var events, q := SpendSweepAsk(cfg, email), Quota(cfg);
    SpendSweepAskIsAnHour(cfg, email);
    hide Ordered, WithinAnHour;
    SpendingTheQuota(cfg, email, events, q);
    PrefixStep(cfg, [], events, true, q);
    AllExpired(RowsAfter(cfg, [], events[..q], true), Stamp(HOUR));
    assert RowsAfter(cfg, [], events[..q + 1], true) == [];
    assert Codes(cfg, [], events, true, email, q + 1);
    assert !Codes(cfg, [], events, true, email, q);
  }

  /** The documented limit holds in every run exactly when codes live at least an hour,
      or when no code may be sent at all. */
  lemma QuotaIsHourlyIff(cfg: Config)
    ensures QuotaIsHourly(cfg) <==> cfg.codeExpiry >= 3600.0 || cfg.maxPerHour <= 0
  {
    if cfg.codeExpiry >= 3600.0 || cfg.maxPerHour <= 0 {
      forall events: seq<Event>, email: string, i: nat, j: nat, start: real
        | i <= j <= |events| && Ordered(events) && WithinAnHour(events, i, j, start)
        ensures CodesBetween(cfg, [], events, true, email, i, j) <= Quota(cfg)
      {
        if cfg.maxPerHour <= 0 {
          HourlyQuota(cfg, [], events, email, i, j, start);
          assert Quota(cfg) * (1 + SweepsBetween(events, i, j)) == 0;
        } else {
          SameCodes(cfg, events, email, i, j);
          var latest := CodesByEpoch(cfg, [], events, false, email, i, j, start);
        }
      }
    } else {
      SweptQuotaIsSpentTwice(cfg, "");
      var events := SpendSweepAsk(cfg, "");
      assert !(CodesBetween(cfg, [], events, true, "", 0, |events|) <= Quota(cfg));
    }
  }

  /** The defaults, ten minutes and five codes, allow six codes within an hour. */
  lemma DefaultsExceedTheQuota()
    ensures !QuotaIsHourly(Config(600.0, 5))
  {
    QuotaIsHourlyIff(Config(600.0, 5));
  }

  // ---------------------------------------------------------------- what decides a request

  /** Event j handed a code to the email which, at event k, is less than an hour old, and no sweep in between
      came after it had expired. Times count in whole seconds. No table appears here. */
  ghost predicate StillCounts(cfg: Config, events: seq<Event>, email: string, j: nat, k: nat)
    requires k < |events|
  {
    && j < k && Codes(cfg, [], events, true, email, j)
    && events[j].at.Floor >= (events[k].at - 3600.0).Floor
    && forall i | j < i < k && events[i].Sweep? :: (events[j].at + cfg.codeExpiry).Floor >= events[i].at.Floor
  }

  /** The events whose codes are in the table. */
  function Survivors(cfg: Config, events: seq<Event>): seq<nat> {
    if events == [] then []
    else
      var k := |events| - 1;
      var before := Survivors(cfg, events[..k]);
      match events[k]
      case Send(email, at) =>
        if Grants(cfg, RowsAfter(cfg, [], events[..k], true), email, at) then before + [k] else before
      case Sweep(at) => Alive(cfg, events, before, Stamp(at))
  }

  /** Those whose codes have not expired. */
  function Alive(cfg: Config, events: seq<Event>, idx: seq<nat>, now: int): seq<nat> {
    if idx == [] then []
    else
      var i := idx[|idx| - 1];
      Alive(cfg, events, idx[..|idx| - 1], now)
      + if i < |events| && Stamp(events[i].at + cfg.codeExpiry) < now then [] else [i]
  }

  predicate SendsOf(events: seq<Event>, idx: seq<nat>) {
    && (forall m, n | 0 <= m < n < |idx| :: idx[m] < idx[n])
    && (forall n | 0 <= n < |idx| :: idx[n] < |events| && events[idx[n]].Send?)
  }

  function RowOf(cfg: Config, events: seq<Event>, i: nat): Row
    requires i < |events| && events[i].Send?
  {
    Issued(cfg, events[i].email, events[i].at)
  }

  function RowsOf(cfg: Config, events: seq<Event>, idx: seq<nat>): (rows: seq<Row>)
    requires SendsOf(events, idx)
    ensures |rows| == |idx| && forall n | 0 <= n < |idx| :: rows[n] == RowOf(cfg, events, idx[n])
  {
    seq(|idx|, n requires 0 <= n < |idx| => RowOf(cfg, events, idx[n]))
  }

  lemma RowsOfSnoc(cfg: Config, events: seq<Event>, idx: seq<nat>, last: nat)
    requires SendsOf(events, idx + [last])
    ensures SendsOf(events, idx) && last < |events| && events[last].Send?
    ensures RowsOf(cfg, events, idx + [last]) == RowsOf(cfg, events, idx) + [RowOf(cfg, events, last)]
  {
    var all := idx + [last];
    assert all[|idx|] == last && forall n | 0 <= n < |idx| :: all[n] == idx[n];
  }

  lemma {:induction false} AliveAre(cfg: Config, events: seq<Event>, idx: seq<nat>, now: int)
    requires SendsOf(events, idx)
    ensures forall i :: i in Alive(cfg, events, idx, now) <==> i in idx && Stamp(events[i].at + cfg.codeExpiry) >= now
  {
    if idx != [] {
      var init, last := idx[..|idx| - 1], idx[|idx| - 1];
      assert idx == init + [last];
      AliveAre(cfg, events, init, now);
    }
  }

  lemma Subsequent(events: seq<Event>, init: seq<nat>, kept: seq<nat>, last: nat)
    requires SendsOf(events, init + [last]) && SendsOf(events, kept) && forall i | i in kept :: i in init
    ensures SendsOf(events, kept + [last])
  {
    var all := init + [last];
    assert all[|init|] == last;
    forall n | 0 <= n < |kept| ensures kept[n] < last {
      assert kept[n] in init;
      var m :| 0 <= m < |init| && init[m] == kept[n];
      assert all[m] == kept[n];
    }
  }

  lemma {:induction false} AliveRows(cfg: Config, events: seq<Event>, idx: seq<nat>, now: int)
    requires SendsOf(events, idx)
    ensures SendsOf(events, Alive(cfg, events, idx, now))
    ensures RowsOf(cfg, events, Alive(cfg, events, idx, now)) == Unexpired(RowsOf(cfg, events, idx), now)
  {
    if idx != [] {
      var init, last := idx[..|idx| - 1], idx[|idx| - 1];
      assert idx == init + [last];
      RowsOfSnoc(cfg, events, init, last);
      AliveRows(cfg, events, init, now);
      AliveAre(cfg, events, init, now);
      var kept, rows := Alive(cfg, events, init, now), RowsOf(cfg, events, init);
      assert RowsOf(cfg, events, idx)[..|idx| - 1] == rows;
      if Stamp(events[last].at + cfg.codeExpiry) >= now {
        assert Alive(cfg, events, idx, now) == kept + [last];
        Subsequent(events, init, kept, last);
        RowsOfSnoc(cfg, events, kept, last);
        assert Unexpired(RowsOf(cfg, events, idx), now) == Unexpired(rows, now) + [RowOf(cfg, events, last)];
      } else {
        assert Alive(cfg, events, idx, now) == kept;
        assert Unexpired(RowsOf(cfg, events, idx), now) == Unexpired(rows, now);
      }
    }
  }

  /** Event j handed out a code and no sweep before event k came after it had expired. */
  ghost predicate InTable(cfg: Config, events: seq<Event>, j: nat, k: nat)
    requires k <= |events|
  {
    && j < k && events[j].Send? && Codes(cfg, [], events, true, events[j].email, j)
    && forall i | j < i < k && events[i].Sweep? :: Stamp(events[j].at + cfg.codeExpiry) >= Stamp(events[i].at)
  }

  lemma InTableNext(cfg: Config, events: seq<Event>, j: nat, k: nat)
    requires k < |events|
    ensures InTable(cfg, events, j, k + 1) <==>
        || (j == k && events[k].Send? && Codes(cfg, [], events, true, events[k].email, k))
        || (InTable(cfg, events, j, k)
            && (events[k].Sweep? ==> Stamp(events[j].at + cfg.codeExpiry) >= Stamp(events[k].at)))
  {
    hide Codes;
  }

  lemma {:induction false} AliveOfPrefix(cfg: Config, events: seq<Event>, k: nat, idx: seq<nat>, now: int)
    requires k <= |events| && SendsOf(events[..k], idx)
    ensures SendsOf(events, idx) && Alive(cfg, events[..k], idx, now) == Alive(cfg, events, idx, now)
  {
    if idx != [] {
      AliveOfPrefix(cfg, events, k, idx[..|idx| - 1], now);
    }
  }

  /** These are the events whose codes the table holds after k events. */
  ghost predicate TableIs(cfg: Config, events: seq<Event>, k: nat, idx: seq<nat>)
    requires k <= |events|
  {
    && SendsOf(events[..k], idx) && SendsOf(events, idx)
    && RowsAfter(cfg, [], events[..k], true) == RowsOf(cfg, events, idx)
    && forall j: nat :: j in idx <==> InTable(cfg, events, j, k)
  }

  /** The table holds exactly the codes that no sweep found expired. */
  lemma {:induction false} SurvivorsAreTheTable(cfg: Config, events: seq<Event>, k: nat)
    requires k <= |events|
    ensures TableIs(cfg, events, k, Survivors(cfg, events[..k]))
    decreases k
  {
    if k > 0 {
      SurvivorsAreTheTable(cfg, events, k - 1);
      SurvivorsNext(cfg, events, k - 1);
    }
  }

  lemma SurvivorsNext(cfg: Config, events: seq<Event>, n: nat)
    requires n < |events| && TableIs(cfg, events, n, Survivors(cfg, events[..n]))
    ensures TableIs(cfg, events, n + 1, Survivors(cfg, events[..n + 1]))
  {
    assert events[..n + 1][..n] == events[..n];
    PrefixStep(cfg, [], events, true, n);
    if events[n].Send? {
      SurvivorsAfterSend(cfg, events, n);
    } else {
      SurvivorsAfterSweep(cfg, events, n);
    }
  }

  lemma SurvivorsAfterSend(cfg: Config, events: seq<Event>, n: nat)
    requires n < |events| && events[n].Send? && TableIs(cfg, events, n, Survivors(cfg, events[..n]))
    requires events[..n + 1][..n] == events[..n]
    requires RowsAfter(cfg, [], events[..n + 1], true)
          == Step(cfg, RowsAfter(cfg, [], events[..n], true), events[n], true)
    ensures TableIs(cfg, events, n + 1, Survivors(cfg, events[..n + 1]))
  {
    var before, idx := Survivors(cfg, events[..n]), Survivors(cfg, events[..n + 1]);
    forall j: nat ensures InTable(cfg, events, j, n + 1) <==>
        (j == n && Codes(cfg, [], events, true, events[n].email, n)) || InTable(cfg, events, j, n)
    {
      InTableNext(cfg, events, j, n);
    }
    hide InTable, RowsAfter;
    if Grants(cfg, RowsAfter(cfg, [], events[..n], true), events[n].email, events[n].at) {
      assert idx == before + [n];
      RowsOfSnoc(cfg, events, before, n);
    } else {
      assert idx == before;
    }
  }

  lemma SurvivorsAfterSweep(cfg: Config, events: seq<Event>, n: nat)
    requires n < |events| && events[n].Sweep? && TableIs(cfg, events, n, Survivors(cfg, events[..n]))
    requires events[..n + 1][..n] == events[..n]
    requires RowsAfter(cfg, [], events[..n + 1], true)
          == Step(cfg, RowsAfter(cfg, [], events[..n], true), events[n], true)
    ensures TableIs(cfg, events, n + 1, Survivors(cfg, events[..n + 1]))
  {
    var before, now := Survivors(cfg, events[..n]), Stamp(events[n].at);
    assert SendsOf(events[..n + 1], before);
    AliveOfPrefix(cfg, events, n + 1, before, now);
    AliveAre(cfg, events, before, now);
    AliveRows(cfg, events, before, now);
    AliveRows(cfg, events[..n + 1], before, now);
    forall j: nat ensures InTable(cfg, events, j, n + 1) <==>
        InTable(cfg, events, j, n) && Stamp(events[j].at + cfg.codeExpiry) >= now
    {
      InTableNext(cfg, events, j, n);
    }
    hide InTable, RowsAfter, Unexpired;
  }

  ghost function RecentOf(events: seq<Event>, idx: seq<nat>, email: string, since: int): set<nat>
    requires SendsOf(events, idx)
  {
    set i | i in idx && events[i].email == email && Stamp(events[i].at) >= since
  }

  /** The count of the table is the number of such events. */
  lemma {:induction false} CountIsCardinality(cfg: Config, events: seq<Event>, idx: seq<nat>, email: string, since: int)
    requires SendsOf(events, idx)
    ensures CountRecent(RowsOf(cfg, events, idx), email, since) == |RecentOf(events, idx, email, since)|
  {
    if idx != [] {
      var init, last := idx[..|idx| - 1], idx[|idx| - 1];
      assert idx == init + [last];
      RowsOfSnoc(cfg, events, init, last);
      CountIsCardinality(cfg, events, init, email, since);
      CountSnoc(RowsOf(cfg, events, init), RowOf(cfg, events, last), email, since);
      var recent := RecentOf(events, init, email, since);
      assert last !in init;
      if events[last].email == email && Stamp(events[last].at) >= since {
        assert RecentOf(events, idx, email, since) == recent + {last};
      } else {
        assert RecentOf(events, idx, email, since) == recent;
      }
    }
  }

  /** A request is granted if and only if fewer codes than the quota still count. */
  lemma QuotaDecision(cfg: Config, events: seq<Event>, email: string, k: nat)
    requires k < |events| && events[k].Send? && events[k].email == email
    ensures Codes(cfg, [], events, true, email, k)
        <==> |set j: nat | j < k && StillCounts(cfg, events, email, j, k)| < cfg.maxPerHour
  {
    var idx, since := Survivors(cfg, events[..k]), Stamp(events[k].at - HOUR);
    SurvivorsAreTheTable(cfg, events, k);
    CountIsCardinality(cfg, events, idx, email, since);
    forall j: nat
      ensures (j < k && StillCounts(cfg, events, email, j, k)) <==> j in RecentOf(events, idx, email, since)
    {
      StillCountsMeans(cfg, events, email, j, k);
    }
    hide StillCounts, Codes, InTable, RecentOf, Survivors;
    assert (set j: nat | j < k && StillCounts(cfg, events, email, j, k)) == RecentOf(events, idx, email, since);
    assert Codes(cfg, [], events, true, email, k)
      <==> CountRecent(RowsOf(cfg, events, idx), email, since) < cfg.maxPerHour
      by { DecisionCounts(cfg, events, email, k); }
  }

  lemma DecisionCounts(cfg: Config, events: seq<Event>, email: string, k: nat)
    requires k < |events| && events[k].Send? && events[k].email == email
    ensures Codes(cfg, [], events, true, email, k) <==>
        CountRecent(RowsAfter(cfg, [], events[..k], true), email, Stamp(events[k].at - HOUR)) < cfg.maxPerHour
  {}

  lemma StillCountsMeans(cfg: Config, events: seq<Event>, email: string, j: nat, k: nat)
    requires k < |events|
    ensures StillCounts(cfg, events, email, j, k) <==>
        InTable(cfg, events, j, k) && events[j].email == email && Stamp(events[j].at) >= Stamp(events[k].at - HOUR)
  {
    hide RowsAfter;
  }

  /** A sweep leaves exactly the rows whose expiry is not before now. */
  lemma {:induction false} UnexpiredRows(rows: seq<Row>, now: int)
    ensures forall r :: r in Unexpired(rows, now) <==> r in rows && r.expiresAt >= now
  {
    if rows != [] {
      var init, last := rows[..|rows| - 1], rows[|rows| - 1];
      UnexpiredRows(init, now);
      assert rows == init + [last];
    }
  }

  // ---------------------------------------------------------------- the service

  class OtpSender {
    const cfg: Config
    var verifications: seq<Row>

    constructor (cfg: Config)
      ensures this.cfg == cfg && verifications == []
    {
      this.cfg := cfg;
      this.verifications := [];
    }

    method SendOTP(email: string, now: real) returns (sent: bool)
      modifies this
      ensures sent == Grants(cfg, old(verifications), email, now)
      ensures verifications == Step(cfg, old(verifications), Send(email, now), true)
      ensures verifications == if sent then old(verifications) + [Row(email, now.Floor, (now + cfg.codeExpiry).Floor)]
                               else old(verifications)
    {
      var count := CountRecent(verifications, email, Stamp(now - HOUR));
      if count >= cfg.maxPerHour {
        return false;
      }
      verifications := verifications + [Row(email, Stamp(now), Stamp(now + cfg.codeExpiry))];
      sent := true;
    }

    method DeleteExpiredVerifications(now: real)
      modifies this
      ensures verifications == Step(cfg, old(verifications), Sweep(now), true)
      ensures forall r :: r in verifications <==> r in old(verifications) && r.expiresAt >= now.Floor
    {
      UnexpiredRows(verifications, Stamp(now));
      verifications := Unexpired(verifications, Stamp(now));
    }
  }
}
