/** The reputation score as an exponentially weighted moving average, over reals. */
module Reputation {

  datatype EventType =
    | Registration | HeartbeatSuccess | HeartbeatMiss | VerificationPass | VerificationFail
    | BridgeSuccess | BridgeError | BridgeTimeout | ReviewPositive | ReviewNegative

  datatype EventConfig = EventConfig(weight: real, value: real)

  type Configs = map<EventType, EventConfig>

  const DEFAULT_ALPHA := 0.1
  const DEFAULT_SCORE := 0.5

  function DefaultConfig(e: EventType): EventConfig {
    match e
    case Registration => EventConfig(0.2, 0.6)
    case HeartbeatSuccess => EventConfig(0.1, 0.55)
    case HeartbeatMiss => EventConfig(-0.3, 0.35)
    case VerificationPass => EventConfig(1.0, 1.0)
    case VerificationFail => EventConfig(-0.5, 0.25)
    case BridgeSuccess => EventConfig(0.3, 0.65)
    case BridgeError => EventConfig(-0.2, 0.4)
    case BridgeTimeout => EventConfig(-0.3, 0.35)
    case ReviewPositive => EventConfig(0.4, 0.7)
    case ReviewNegative => EventConfig(-0.4, 0.3)
  }

  function DefaultEventConfigs(): Configs {
    map e: EventType | true :: DefaultConfig(e)
  }

  function Clamp(x: real): real {
    var low := if x < 1.0 then x else 1.0;
    if low > 0.0 then low else 0.0
  }

  function Mix(alpha: real, score: real, value: real): real {
    alpha * value + (1.0 - alpha) * score
  }

  function Update(alpha: real, score: real, value: real): real {
    Clamp(Mix(alpha, score, value))
  }

  /** The score after a run of event values, oldest first. */
  function Score(alpha: real, start: real, values: seq<real>): real {
    if values == [] then start
    else Update(alpha, Score(alpha, start, values[..|values| - 1]), values[|values| - 1])
  }

  // ---------------------------------------------------------------- closed form

  function Pow(base: real, n: nat): real {
    if n == 0 then 1.0 else base * Pow(base, n - 1)
  }

  /** Each value weighted by how many events came after it. */
  function WeightedSum(decay: real, values: seq<real>): real {
    Sum(decay, values, 0)
  }

  /** The sum of decay^(n-1-i) * v_i over the values from index i on. */
  function Sum(decay: real, values: seq<real>, i: nat): real
    requires i <= |values|
    decreases |values| - i
  {
    if i == |values| then 0.0 else Pow(decay, |values| - 1 - i) * values[i] + Sum(decay, values, i + 1)
  }

  predicate Unit(x: real) {
    0.0 <= x <= 1.0
  }

  predicate UnitValues(values: seq<real>) {
    forall i | 0 <= i < |values| :: Unit(values[i])
  }

  lemma MixIsUnit(alpha: real, score: real, value: real)
    requires Unit(alpha) && Unit(score) && Unit(value)
    ensures Unit(Mix(alpha, score, value))
  {
    assert 0.0 <= alpha * value <= alpha;
    assert 0.0 <= (1.0 - alpha) * score <= 1.0 - alpha;
  }

  lemma ClampOfUnit(x: real)
    requires Unit(x)
    ensures Clamp(x) == x
  {}

  function Distance(x: real, y: real): real {
    if x < y then y - x else x - y
  }

  /** The clamp takes the nearest score there is. */
  lemma ClampIsNearest(x: real, y: real)
    requires Unit(y)
    ensures 0.0 <= Clamp(x) <= 1.0 && Distance(x, Clamp(x)) <= Distance(x, y)
  {}

  /** Whatever the values and the weight, no score leaves the range from 0 to 1. */
  lemma {:induction false} ScoreStaysInRange(alpha: real, start: real, values: seq<real>)
    requires Unit(start)
    ensures 0.0 <= Score(alpha, start, values) <= 1.0
  {
    hide Mix;
    if values != [] {
      var last := Mix(alpha, Score(alpha, start, values[..|values| - 1]), values[|values| - 1]);
      ClampIsNearest(last, 0.0);
      assert Score(alpha, start, values) == Clamp(last);
    }
  }

  /** A better start and better events never give a worse score. */
  lemma {:induction false} BetterEventsBetterScore(alpha: real, start: real, start': real, values: seq<real>,
      values': seq<real>)
    requires 0.0 <= alpha <= 1.0 && start <= start' && |values| == |values'|
    requires forall i | 0 <= i < |values| :: values[i] <= values'[i]
    ensures Score(alpha, start, values) <= Score(alpha, start', values')
    decreases |values|
  {
    if values != [] {
      var n := |values| - 1;
      BetterEventsBetterScore(alpha, start, start', values[..n], values'[..n]);
      MixGrows(alpha, Score(alpha, start, values[..n]), Score(alpha, start', values'[..n]), values[n], values'[n]);
    }
  }

  lemma MixGrows(alpha: real, s: real, s': real, v: real, v': real)
    requires 0.0 <= alpha <= 1.0 && s <= s' && v <= v'
    ensures Mix(alpha, s, v) <= Mix(alpha, s', v')
  {
    assert 0.0 <= alpha * (v' - v) && 0.0 <= (1.0 - alpha) * (s' - s);
  }

  /** An event takes the score toward its value. */
  lemma ScoreMovesTowardValue(alpha: real, score: real, value: real)
    requires 0.0 < alpha <= 1.0 && Unit(score) && Unit(value)
    ensures Update(alpha, score, value) - score == alpha * (value - score)
  {
    MixIsUnit(alpha, score, value);
    ClampOfUnit(Mix(alpha, score, value));
  }

  /** With values between 0 and 1 the score stays there and the clamp never acts. */
  lemma {:induction false} ClampNeverActs(alpha: real, start: real, values: seq<real>)
    requires Unit(alpha) && Unit(start) && UnitValues(values)
    ensures Unit(Score(alpha, start, values))
    ensures values != [] ==>
              Score(alpha, start, values)
                  == Mix(alpha, Score(alpha, start, values[..|values| - 1]), values[|values| - 1])
  {
    if values != [] {
      var score, v := Score(alpha, start, values[..|values| - 1]), values[|values| - 1];
      ClampNeverActs(alpha, start, values[..|values| - 1]);
      MixIsUnit(alpha, score, v);
      ClampOfUnit(Mix(alpha, score, v));
    }
  }

  lemma Distribute(d: real, a: real, b: real)
    ensures d * (a + b) == d * a + d * b
  {}

  lemma Associate(a: real, b: real, c: real)
    ensures a * (b * c) == (a * b) * c
  {}

  /** One more value decays the earlier ones once more. */
  lemma {:induction false} SumSnoc(decay: real, values: seq<real>, v: real, i: nat)
    requires i <= |values|
    ensures Sum(decay, values + [v], i) == decay * Sum(decay, values, i) + v
    decreases |values| - i
  {
    var n := |values|;
    if i == n {
      assert Sum(decay, values + [v], n + 1) == 0.0;
      assert Pow(decay, 0) * v == v;
      assert decay * 0.0 == 0.0;
    } else {
      SumSnoc(decay, values, v, i + 1);
      var p, s := Pow(decay, n - 1 - i), Sum(decay, values, i + 1);
      assert Pow(decay, n - i) == decay * p;
      Associate(decay, p, values[i]);
      Distribute(decay, p * values[i], s);
    }
  }

  function Closed(alpha: real, start: real, values: seq<real>): real {
    Pow(1.0 - alpha, |values|) * start + alpha * WeightedSum(1.0 - alpha, values)
  }

  lemma MixOfTerms(alpha: real, d: real, p: real, start: real, s: real, v: real)
    ensures alpha * v + d * (p * start + alpha * s) == (d * p) * start + alpha * (d * s + v)
  {
    Distribute(d, p * start, alpha * s);
    Associate(d, p, start);
    Associate(d, alpha, s);
    Associate(alpha, d, s);
    Distribute(alpha, d * s, v);
  }

  lemma ClosedSnoc(alpha: real, start: real, values: seq<real>, v: real)
    ensures Closed(alpha, start, values + [v]) == Mix(alpha, Closed(alpha, start, values), v)
  {
    var d := 1.0 - alpha;
    var p, s := Pow(d, |values|), WeightedSum(d, values);
    SumSnoc(d, values, v, 0);
    MixOfTerms(alpha, d, p, start, s, v);
    assert Pow(d, |values| + 1) == d * p;
  }

  lemma ClosedEmpty(alpha: real, start: real)
    ensures Closed(alpha, start, []) == start
  {
    assert alpha * 0.0 == 0.0;
  }

  /** After n events the score is (1-alpha)^n times the start plus alpha times the weighted values. */
  lemma {:induction false} ClosedForm(alpha: real, start: real, values: seq<real>)
    requires Unit(alpha) && Unit(start) && UnitValues(values)
    ensures Score(alpha, start, values) == Closed(alpha, start, values)
  {
    hide Mix, Closed, Clamp, Update;
    if values == [] {
      ClosedEmpty(alpha, start);
    } else {
      var init, v := values[..|values| - 1], values[|values| - 1];
      ClampNeverActs(alpha, start, values);
      ClosedForm(alpha, start, init);
      assert values == init + [v];
      ClosedSnoc(alpha, start, init, v);
    }
  }

  lemma MixShrinksGap(alpha: real, s: real, s': real, v: real)
    ensures Mix(alpha, s, v) - Mix(alpha, s', v) == (1.0 - alpha) * (s - s')
  {}

  /** Two histories that end in the same events differ by exactly their earlier gap, shrunk once per event. */
  lemma {:induction false} Forgetting(alpha: real, start: real, start': real, values: seq<real>)
    requires Unit(alpha) && Unit(start) && Unit(start') && UnitValues(values)
    ensures Score(alpha, start, values) - Score(alpha, start', values) == Pow(1.0 - alpha, |values|) * (start - start')
  {
    hide Mix, Score;
    if values == [] {
      ScoreOfNone(alpha, start);
      ScoreOfNone(alpha, start');
    } else {
      var init, v := values[..|values| - 1], values[|values| - 1];
      Forgetting(alpha, start, start', init);
      ClampNeverActs(alpha, start, values);
      ClampNeverActs(alpha, start', values);
      MixShrinksGap(alpha, Score(alpha, start, init), Score(alpha, start', init), v);
      Associate(1.0 - alpha, Pow(1.0 - alpha, |init|), start - start');
    }
  }

  lemma ScoreOfNone(alpha: real, start: real)
    ensures Score(alpha, start, []) == start
  {}

  // ---------------------------------------------------------------- the trust threshold

  function ValuesOf(events: seq<EventType>): (values: seq<real>)
    ensures |values| == |events| && UnitValues(values)
  {
    seq(|events|, i requires 0 <= i < |events| => DefaultConfig(events[i]).value)
  }

  function Passes(events: seq<EventType>): nat {
    if events == [] then 0
    else Passes(events[..|events| - 1]) + if events[|events| - 1] == VerificationPass then 1 else 0
  }

  function DefaultScoreAfter(events: seq<EventType>): real {
    Score(DEFAULT_ALPHA, DEFAULT_SCORE, ValuesOf(events))
  }

  lemma DefaultStep(events: seq<EventType>)
    requires events != []
    ensures var init, e := events[..|events| - 1], events[|events| - 1];
            && DefaultScoreAfter(events) == 0.1 * DefaultConfig(e).value + 0.9 * DefaultScoreAfter(init)
            && 0.25 <= DefaultConfig(e).value <= 1.0
            && (e != VerificationPass ==> DefaultConfig(e).value <= 0.7)
  {
    hide Score, Update, Clamp;
    var values := ValuesOf(events);
    assert values[..|values| - 1] == ValuesOf(events[..|events| - 1]);
    ClampNeverActs(DEFAULT_ALPHA, DEFAULT_SCORE, values);
  }

  /** What each event makes of a new agent's score. */
  lemma FirstEvents()
    ensures DefaultScoreAfter([]) == 0.5
    ensures DefaultScoreAfter([Registration]) == 0.51
    ensures DefaultScoreAfter([HeartbeatSuccess]) == 0.505
    ensures DefaultScoreAfter([HeartbeatMiss]) == 0.485
    ensures DefaultScoreAfter([VerificationPass]) == 0.55
    ensures DefaultScoreAfter([VerificationFail]) == 0.475
    ensures DefaultScoreAfter([BridgeSuccess]) == 0.515
    ensures DefaultScoreAfter([BridgeError]) == 0.49
    ensures DefaultScoreAfter([BridgeTimeout]) == 0.485
    ensures DefaultScoreAfter([ReviewPositive]) == 0.52
    ensures DefaultScoreAfter([ReviewNegative]) == 0.48
  {
    assert DefaultScoreAfter([]) == 0.5;
    hide DefaultScoreAfter;
    forall e: EventType
      ensures DefaultScoreAfter([e]) == 0.1 * DefaultConfig(e).value + 0.45
    {
      DefaultStep([e]);
      assert [e][..0] == [];
    }
  }

  /** The weight recorded with an event is twice what its value is above the starting score, so its sign tells whether
      the event raises or lowers the score of a new agent. */
  lemma WeightTellsDirection(e: EventType)
    ensures e in DefaultEventConfigs()
    ensures DefaultEventConfigs()[e].weight == 2.0 * (DefaultEventConfigs()[e].value - 0.5)
    ensures DefaultScoreAfter([e]) == 0.5 + DefaultEventConfigs()[e].weight / 20.0
    ensures DefaultEventConfigs()[e].weight > 0.0 <==>
              e in {Registration, HeartbeatSuccess, VerificationPass, BridgeSuccess, ReviewPositive}
  {
    FirstEvents();
    hide DefaultScoreAfter;
  }

  lemma {:induction false} PowShrinks(d: real, n: nat)
    requires 0.0 <= d <= 1.0
    ensures 0.0 <= Pow(d, n) <= 1.0
  {
    if n > 0 {
      PowShrinks(d, n - 1);
      assert 0.0 <= d * Pow(d, n - 1) <= Pow(d, n - 1);
    }
  }

  /** Whatever else happens, k verifications leave at least 0.3 * 0.9^k missing to a full score, and
      the score stays above 0.25. */
  lemma {:induction false} ScoreRange(events: seq<EventType>)
    ensures 0.25 < DefaultScoreAfter(events) <= 1.0 - 0.3 * Pow(0.9, Passes(events))
  {
    if events != [] {
      var init := events[..|events| - 1];
      ScoreRange(init);
      DefaultStep(events);
      PowShrinks(0.9, Passes(init));
    }
  }

  /** A verified agent is shown as trusted above 0.8. Fewer than four verifications never make an agent trusted, and no
      run of events takes the score down to 0.25. */
  lemma TrustNeedsFourPasses(events: seq<EventType>)
    ensures DefaultScoreAfter(events) > 0.25
    ensures Passes(events) < 4 ==> DefaultScoreAfter(events) < 0.8
  {
    ScoreRange(events);
    assert Pow(0.9, 1) == 0.9 && Pow(0.9, 2) == 0.81;
    assert Pow(0.9, 3) == 0.729;
  }

  function Repeat(e: EventType, n: nat): (s: seq<EventType>)
    ensures |s| == n
  {
    seq(n, i => e)
  }

  lemma {:induction false} PowAdds(d: real, m: nat, n: nat)
    ensures Pow(d, m + n) == Pow(d, m) * Pow(d, n)
    decreases m
  {
    if m > 0 {
      PowAdds(d, m - 1, n);
      Associate(d, Pow(d, m - 1), Pow(d, n));
    }
  }

  lemma RepeatStep(v: real, p: real, gap: real)
    ensures 0.1 * v + 0.9 * (v - p * gap) == v - (0.9 * p) * gap
  {
    Associate(0.9, p, gap);
  }

  lemma {:induction false} RepeatedEvent(events: seq<EventType>, e: EventType, n: nat)
    ensures var v := DefaultConfig(e).value;
            DefaultScoreAfter(events + Repeat(e, n)) == v - Pow(0.9, n) * (v - DefaultScoreAfter(events))
    decreases n
  {
    hide DefaultScoreAfter, DefaultConfig;
    var v := DefaultConfig(e).value;
    if n == 0 {
      assert events + Repeat(e, 0) == events;
    } else {
      RepeatedEvent(events, e, n - 1);
      var all := events + Repeat(e, n);
      DefaultStep(all);
      assert all[..|all| - 1] == events + Repeat(e, n - 1);
      RepeatStep(v, Pow(0.9, n - 1), v - DefaultScoreAfter(events));
    }
  }

  /** Four are enough: after 36 good reviews they lift the score over the threshold. */
  lemma FourPassesSuffice()
    ensures DefaultScoreAfter(Repeat(ReviewPositive, 36) + Repeat(VerificationPass, 4)) > 0.8
  {
    RepeatedEvent([], ReviewPositive, 36);
    assert [] + Repeat(ReviewPositive, 36) == Repeat(ReviewPositive, 36);
    assert DefaultScoreAfter([]) == 0.5;
    RepeatedEvent(Repeat(ReviewPositive, 36), VerificationPass, 4);
    SmallPowers();
    PowerOf36();
    hide Pow;
  }

  lemma SmallPowers()
    ensures Pow(0.9, 4) == 0.6561
  {
    assert Pow(0.9, 1) == 0.9 && Pow(0.9, 2) == 0.81;
    PowAdds(0.9, 2, 2);
  }

  lemma PowerOf36()
    ensures Pow(0.9, 36) < 0.0227
  {
    SmallPowers();
    hide Pow;
    PowAdds(0.9, 4, 4);
    assert Pow(0.9, 8) == 0.43046721;
    PowAdds(0.9, 8, 8);
    assert Pow(0.9, 16) < 0.1854;
    PowShrinks(0.9, 16);
    PowAdds(0.9, 16, 16);
    SquareBound(Pow(0.9, 16), 0.1854);
    assert Pow(0.9, 32) < 0.0345;
    PowAdds(0.9, 32, 4);
  }

  lemma PositiveProduct(a: real, b: real)
    requires a > 0.0 && b > 0.0
    ensures a * b > 0.0
  {}

  lemma SquareBound(x: real, b: real)
    requires 0.0 <= x < b
    ensures x * x < b * b
  {
    PositiveProduct(b - x, b + x);
    assert (b - x) * (b + x) == b * b - x * x;
  }

  // ---------------------------------------------------------------- the engine and its store

  /** A row of the agents table: the cached score and the number of events. */
  datatype AgentRow = AgentRow(score: real, eventCount: int)

  /** A row of reputation_events. */
  datatype EventRow = EventRow(agent: string, kind: EventType, weight: real, scoreAfter: real)

  function EventsOf(log: seq<EventRow>, agent: string): seq<EventRow> {
    if log == [] then []
    else
      var e := log[|log| - 1];
      EventsOf(log[..|log| - 1], agent) + if e.agent == agent then [e] else []
  }

  lemma EventsOfSnoc(log: seq<EventRow>, e: EventRow, agent: string)
    ensures EventsOf(log + [e], agent) == EventsOf(log, agent) + if e.agent == agent then [e] else []
  {
    assert (log + [e])[..|log|] == log;
  }

  function ConfiguredValues(configs: Configs, rows: seq<EventRow>): seq<real> {
    if rows == [] then []
    else
      var e := rows[|rows| - 1];
      ConfiguredValues(configs, rows[..|rows| - 1]) + [if e.kind in configs then configs[e.kind].value else 0.0]
  }

  /** The row agrees with the agent's log: as many events as were logged, the score of the last one,
      and that is the moving average of their values from the default score. */
  ghost predicate RowMatchesLog(alpha: real, configs: Configs, row: AgentRow, rows: seq<EventRow>) {
    && row.eventCount == |rows|
    && row.score == (if rows == [] then DEFAULT_SCORE else rows[|rows| - 1].scoreAfter)
    && row.score == Score(alpha, DEFAULT_SCORE, ConfiguredValues(configs, rows))
  }

  lemma RecordedRowMatches(alpha: real, configs: Configs, row: AgentRow, rows: seq<EventRow>, e: EventRow)
    requires RowMatchesLog(alpha, configs, row, rows)
    requires e.kind in configs && e.scoreAfter == Update(alpha, row.score, configs[e.kind].value)
    ensures RowMatchesLog(alpha, configs, AgentRow(e.scoreAfter, row.eventCount + 1), rows + [e])
  {
    assert (rows + [e])[..|rows|] == rows;
    var values := ConfiguredValues(configs, rows);
    assert (values + [configs[e.kind].value])[..|values|] == values;
  }

  ghost predicate AllRowsMatch(alpha: real, configs: Configs, agents: map<string, AgentRow>, log: seq<EventRow>) {
    forall a | a in agents :: RowMatchesLog(alpha, configs, agents[a], EventsOf(log, a))
  }

  lemma RecordKeepsRows(alpha: real, configs: Configs, agents: map<string, AgentRow>, log: seq<EventRow>, e: EventRow)
    requires AllRowsMatch(alpha, configs, agents, log) && e.kind in configs
    requires e.agent in agents ==> e.scoreAfter == Update(alpha, agents[e.agent].score, configs[e.kind].value)
    ensures AllRowsMatch(alpha, configs,
                         if e.agent in agents
                         then agents[e.agent := AgentRow(e.scoreAfter, agents[e.agent].eventCount + 1)]
                         else agents,
                         log + [e])
  {
    hide RowMatchesLog, Update, EventsOf;
    forall a | a in agents
      ensures EventsOf(log + [e], a) == EventsOf(log, a) + if e.agent == a then [e] else []
      ensures EventsOf(log, a) + [] == EventsOf(log, a)
    {
      EventsOfSnoc(log, e, a);
    }
    if e.agent in agents {
      RecordedRowMatches(alpha, configs, agents[e.agent], EventsOf(log, e.agent), e);
    }
  }

  /** The weights a configuration may give. */
  datatype Weights = Default | Given(configs: Configs)

  function EffectiveAlpha(alpha: real): (a: real)
    ensures 0.0 < a <= 1.0 && (a == alpha || (a == 0.1 && !(0.0 < alpha <= 1.0)))
  {
    if alpha <= 0.0 || alpha > 1.0 then DEFAULT_ALPHA else alpha
  }

  class Engine {
    const alpha: real
    const configs: Configs
    var agents: map<string, AgentRow>
    var events: seq<EventRow>

    /** Every registered agent's row matches its log. */
    ghost predicate Valid()
      reads this
    {
      0.0 < alpha <= 1.0 && AllRowsMatch(alpha, configs, agents, events)
    }

    constructor (alpha: real, weights: Weights)
      ensures Valid() && this.alpha == (if 0.0 < alpha <= 1.0 then alpha else 0.1)
      ensures agents == map[] && events == []
      ensures configs == if weights.Default? then DefaultEventConfigs() else weights.configs
    {
      this.alpha := EffectiveAlpha(alpha);
      this.configs := if weights.Default? then DefaultEventConfigs() else weights.configs;
      this.agents := map[];
      this.events := [];
    }

    /** A new agent's row, with the column defaults. Ids are new. */
    method AddAgent(agent: string)
      requires Valid() && agent !in agents && EventsOf(events, agent) == []
      modifies this`agents
      ensures Valid() && agents == old(agents)[agent := AgentRow(0.5, 0)]
    {
      agents := agents[agent := AgentRow(DEFAULT_SCORE, 0)];
    }

    method RecordEvent(agent: string, kind: EventType)
      requires Valid()
      modifies this`agents, this`events
      ensures Valid()
      ensures kind !in configs ==> agents == old(agents) && events == old(events)
      ensures kind in configs ==>
                var score := if agent in old(agents) then old(agents)[agent].score else 0.5;
                var next := Update(alpha, score, configs[kind].value);
                && events == old(events) + [EventRow(agent, kind, configs[kind].weight, next)]
                && agents == if agent in old(agents)
                             then old(agents)[agent := AgentRow(next, old(agents)[agent].eventCount + 1)]
                             else old(agents)
    {
      hide AllRowsMatch, Update;
      if kind !in configs {
        return;
      }
      var cfg := configs[kind];
      var currentScore, eventCount := DEFAULT_SCORE, 0;
      if agent in agents {
        currentScore, eventCount := agents[agent].score, agents[agent].eventCount;
      }
      var newScore := Update(alpha, currentScore, cfg.value);
      eventCount := eventCount + 1;
      var event := EventRow(agent, kind, cfg.weight, newScore);
      RecordKeepsRows(alpha, configs, agents, events, event);
      events := events + [event];
      // The update of the agents table finds no row for an unregistered agent.
      if agent in agents {
        agents := agents[agent := AgentRow(newScore, eventCount)];
      }
    }
  }
}
