/** The connection table of the signaling hub under concurrent handlers.

    A handler tests the limit under a read lock, upgrades and authenticates without a lock, inserts
    its connection under the write lock, and removes it in a deferred cleanup under the write lock.
    Each locked section is one step. */
module Hub {
  import opened FiniteSets

  type Agent = string

  /** A connection and the one handler that serves it share an identity. */
  type Conn = nat

  datatype Handler =
    | Passed(agent: Agent)    // has passed the limit test, has not inserted
    | Serving(agent: Agent)   // has inserted, its cleanup has not run

  datatype Event =
    | Inserted(agent: Agent, conn: Conn)
    | Exited(agent: Agent, conn: Conn)
    | ClosedAll

  /** `conns` is the table. The rest is the handlers' positions and bookkeeping: the identities used,
      the most agents ever between test and insert, and the history of the table. */
  datatype State = State(
    maxConns: int,
    conns: map<Agent, Conn>,
    handlers: map<Conn, Handler>,
    used: set<Conn>,
    peak: nat,
    log: seq<Event>)

  datatype Step =
    | Test(c: Conn, agent: Agent)
    | Abort(c: Conn)      // the upgrade or the authentication fails
    | Insert(c: Conn)
    | Exit(c: Conn)
    | CloseAll

  function Initial(maxConns: int): State {
    State(maxConns, map[], map[], {}, 0, [])
  }

  /** The distinct agents with a handler between test and insert. */
  function InFlight(handlers: map<Conn, Handler>): set<Agent> {
    set c | c in handlers && handlers[c].Passed? :: handlers[c].agent
  }

  predicate Enabled(s: State, step: Step) {
    match step
    case Test(c, _) => c !in s.used
    case Abort(c) => c in s.handlers && s.handlers[c].Passed?
    case Insert(c) => c in s.handlers && s.handlers[c].Passed?
    case Exit(c) => c in s.handlers && s.handlers[c].Serving?
    case CloseAll => true
  }

  /** A handler is turned away without an agent id, or at the limit unless its agent is connected. */
  predicate TurnedAway(s: State, agent: Agent) {
    agent == "" || (s.maxConns > 0 && agent !in s.conns && |s.conns| >= s.maxConns)
  }

  function Next(s: State, step: Step): State
    requires Enabled(s, step)
  {
    match step
    case Test(c, agent) =>
      if TurnedAway(s, agent) then s
      else
        var handlers := s.handlers[c := Passed(agent)];
        var n := |InFlight(handlers)|;
        s.(handlers := handlers, used := s.used + {c}, peak := if n > s.peak then n else s.peak)
    case Abort(c) => s.(handlers := s.handlers - {c})
    case Insert(c) =>
      var agent := s.handlers[c].agent;
      s.(conns := s.conns[agent := c], handlers := s.handlers[c := Serving(agent)], log := s.log + [Inserted(agent, c)])
    case Exit(c) =>
      var agent := s.handlers[c].agent;
      s.(conns := if agent in s.conns && s.conns[agent] == c then s.conns - {agent} else s.conns,
         handlers := s.handlers - {c}, log := s.log + [Exited(agent, c)])
    case CloseAll => s.(conns := map[], log := s.log + [ClosedAll])
  }

  predicate Runs(s: State, steps: seq<Step>)
    decreases |steps|
  {
    steps == [] || (Enabled(s, steps[0]) && Runs(Next(s, steps[0]), steps[1..]))
  }

  function Final(s: State, steps: seq<Step>): State
    requires Runs(s, steps)
    decreases |steps|
  {
    if steps == [] then s else Final(Next(s, steps[0]), steps[1..])
  }

  // ---------------------------------------------------------------- the bound

  ghost predicate Bounded(s: State) {
    && s.handlers.Keys <= s.used
    && |InFlight(s.handlers)| <= s.peak
    && (s.maxConns > 0 ==> |s.conns.Keys + InFlight(s.handlers)| <= s.maxConns - 1 + s.peak)
  }

  lemma OneMoreInFlight(handlers: map<Conn, Handler>, c: Conn, agent: Agent)
    requires c !in handlers
    ensures InFlight(handlers[c := Passed(agent)]) == InFlight(handlers) + {agent}
  {
    var handlers' := handlers[c := Passed(agent)];
    assert handlers'[c] == Passed(agent);
    forall a | a in InFlight(handlers)
      ensures a in InFlight(handlers')
    {
      var c' :| c' in handlers && handlers[c'].Passed? && handlers[c'].agent == a;
      assert handlers'[c'] == handlers[c'];
    }
  }

  lemma TestKeepsBound(s: State, c: Conn, agent: Agent)
    requires Enabled(s, Test(c, agent)) && Bounded(s)
    ensures Bounded(Next(s, Test(c, agent)))
  {
    if !TurnedAway(s, agent) {
      OneMoreInFlight(s.handlers, c, agent);
      var f' := InFlight(s.handlers) + {agent};
      if agent in s.conns {
        assert s.conns.Keys + f' == s.conns.Keys + InFlight(s.handlers);
      } else {
        UnionSize(s.conns.Keys, f');
        SubsetSize(f' - s.conns.Keys, f');
      }
    }
  }

  lemma FewerInFlight(handlers: map<Conn, Handler>, c: Conn, agent: Agent)
    ensures InFlight(handlers - {c}) <= InFlight(handlers)
    ensures InFlight(handlers[c := Serving(agent)]) <= InFlight(handlers)
  {}

  /** A step that takes agents out of the table or out of flight, or moves one from flight into the table. */
  lemma ShrinkingKeepsBound(s: State, s': State)
    requires Bounded(s) && s'.handlers.Keys <= s'.used && s'.maxConns == s.maxConns && s'.peak == s.peak
    requires InFlight(s'.handlers) <= InFlight(s.handlers)
    requires s'.conns.Keys <= s.conns.Keys + InFlight(s.handlers)
    ensures Bounded(s')
  {
    SubsetSize(InFlight(s'.handlers), InFlight(s.handlers));
    SubsetSize(s'.conns.Keys + InFlight(s'.handlers), s.conns.Keys + InFlight(s.handlers));
  }

  lemma StepKeepsBound(s: State, step: Step)
    requires Enabled(s, step) && Bounded(s)
    ensures Bounded(Next(s, step)) && Next(s, step).maxConns == s.maxConns
  {
    match step
    case Test(c, agent) => TestKeepsBound(s, c, agent);
    case Abort(c) =>
      FewerInFlight(s.handlers, c, "");
      ShrinkingKeepsBound(s, Next(s, step));
    case Insert(c) =>
      FewerInFlight(s.handlers, c, s.handlers[c].agent);
      assert s.handlers[c].agent in InFlight(s.handlers);
      ShrinkingKeepsBound(s, Next(s, step));
    case Exit(c) =>
      FewerInFlight(s.handlers, c, "");
      ShrinkingKeepsBound(s, Next(s, step));
    case CloseAll => ShrinkingKeepsBound(s, Next(s, step));
  }

  lemma {:induction false} RunKeepsBound(s: State, steps: seq<Step>)
    requires Bounded(s) && Runs(s, steps)
    ensures Bounded(Final(s, steps)) && Final(s, steps).maxConns == s.maxConns
    decreases |steps|
  {
    if steps != [] {
      StepKeepsBound(s, steps[0]);
      RunKeepsBound(Next(s, steps[0]), steps[1..]);
    }
  }

  /** In every interleaving the connections and the agents in flight without one stay below the
      limit plus the most agents ever in flight at once, and one agent at a time means the limit itself. */
  lemma ConnectionBound(maxConns: int, steps: seq<Step>)
    requires maxConns > 0 && Runs(Initial(maxConns), steps)
    ensures var s := Final(Initial(maxConns), steps);
      && |s.conns| + |InFlight(s.handlers) - s.conns.Keys| <= maxConns - 1 + s.peak
      && (s.peak <= 1 ==> |s.conns| <= maxConns)
  {
    RunKeepsBound(Initial(maxConns), steps);
    var s := Final(Initial(maxConns), steps);
    UnionSize(s.conns.Keys, InFlight(s.handlers));
  }

  // ---------------------------------------------------------------- who owns an entry

  /** The event takes a standing entry of the agent out of force. */
  predicate Ends(e: Event, agent: Agent, conn: Conn) {
    match e
    case Inserted(a, _) => a == agent
    case Exited(a, c) => a == agent && c == conn
    case ClosedAll => true
  }

  /** The history's last insertion for the agent is this connection, and since then neither its own
      cleanup nor a shutdown came. */
  ghost predicate Owns(log: seq<Event>, agent: Agent, conn: Conn) {
    exists i :: 0 <= i < |log| && log[i] == Inserted(agent, conn)
                && forall j | i < j < |log| :: !Ends(log[j], agent, conn)
  }

  lemma OwnsSnoc(log: seq<Event>, e: Event, agent: Agent, conn: Conn)
    ensures Owns(log + [e], agent, conn) <==>
            e == Inserted(agent, conn) || (Owns(log, agent, conn) && !Ends(e, agent, conn))
  {
    var log' := log + [e];
    if Owns(log', agent, conn) {
      var i :| 0 <= i < |log'| && log'[i] == Inserted(agent, conn) && forall j | i < j < |log'| ::
          !Ends(log'[j], agent, conn);
      if i < |log| {
        assert log[i] == log'[i];
        assert !Ends(log'[|log|], agent, conn);
        assert forall j | i < j < |log| :: log[j] == log'[j];
      }
    }
    if e == Inserted(agent, conn) {
      assert log'[|log|] == e;
    }
    if Owns(log, agent, conn) && !Ends(e, agent, conn) {
      var i :| 0 <= i < |log| && log[i] == Inserted(agent, conn) && forall j | i < j < |log| ::
          !Ends(log[j], agent, conn);
      assert log'[i] == Inserted(agent, conn);
      assert forall j | i < j < |log'| :: if j < |log| then log'[j] == log[j] else log'[j] == e;
    }
  }

  /** The table is what the history says it is, and every entry has a live handler. */
  ghost predicate Faithful(s: State) {
    && (forall a, c :: (a in s.conns && s.conns[a] == c) <==> Owns(s.log, a, c))
    && (forall a | a in s.conns :: s.conns[a] in s.handlers && s.handlers[s.conns[a]] == Serving(a))
    && s.handlers.Keys <= s.used
  }

  lemma StepKeepsFaith(s: State, step: Step)
    requires Enabled(s, step) && Faithful(s)
    ensures Faithful(Next(s, step))
  {
    var s' := Next(s, step);
    if s'.log != s.log {
      var e := s'.log[|s.log|];
      assert s'.log == s.log + [e];
      forall a, c
        ensures (a in s'.conns && s'.conns[a] == c) <==> Owns(s'.log, a, c)
      {
        OwnsSnoc(s.log, e, a, c);
      }
    }
  }

  lemma {:induction false} RunKeepsFaith(s: State, steps: seq<Step>)
    requires Faithful(s) && Runs(s, steps)
    ensures Faithful(Final(s, steps))
    decreases |steps|
  {
    if steps != [] {
      StepKeepsFaith(s, steps[0]);
      RunKeepsFaith(Next(s, steps[0]), steps[1..]);
    }
  }

  /** After any run an agent's entry is exactly the last connection inserted for it, provided neither
      that connection's cleanup nor a shutdown came since; its handler is still serving. */
  lemma Ownership(maxConns: int, steps: seq<Step>)
    requires Runs(Initial(maxConns), steps)
    ensures var s := Final(Initial(maxConns), steps);
      && (forall a, c :: (a in s.conns && s.conns[a] == c) <==> Owns(s.log, a, c))
      && (forall a | a in s.conns :: s.conns[a] in s.handlers && s.handlers[s.conns[a]] == Serving(a))
  {
    RunKeepsFaith(Initial(maxConns), steps);
  }

  /** A handler's exit takes away its own connection or nothing: a newer one stays. */
  lemma ExitKeepsNewer(maxConns: int, steps: seq<Step>, c: Conn, agent: Agent)
    requires Runs(Initial(maxConns), steps) && Enabled(Final(Initial(maxConns), steps), Exit(c))
    ensures var s := Final(Initial(maxConns), steps);
            var s' := Next(s, Exit(c));
            agent in s.conns && s.conns[agent] != c ==> agent in s'.conns && s'.conns[agent] == s.conns[agent]
    ensures var s' := Next(Final(Initial(maxConns), steps), Exit(c));
            forall a | a in s'.conns :: s'.conns[a] != c
  {
    RunKeepsFaith(Initial(maxConns), steps);
    StepKeepsFaith(Final(Initial(maxConns), steps), Exit(c));
  }

  lemma {:induction false} DoneStaysDone(s: State, steps: seq<Step>, c: Conn)
    requires Runs(s, steps) && c in s.used && c !in s.handlers
    ensures c !in Final(s, steps).handlers
    decreases |steps|
  {
    if steps != [] {
      DoneStaysDone(Next(s, steps[0]), steps[1..], c);
    }
  }

  /** A connection whose upgrade or authentication failed, or whose handler exited, is in no later table. */
  lemma NeverBack(maxConns: int, steps: seq<Step>, last: Step, c: Conn, later: seq<Step>)
    requires Runs(Initial(maxConns), steps) && last in {Abort(c), Exit(c)}
    requires Enabled(Final(Initial(maxConns), steps), last) && Runs(Next(Final(Initial(maxConns), steps), last), later)
    ensures var s := Final(Next(Final(Initial(maxConns), steps), last), later);
            forall a | a in s.conns :: s.conns[a] != c
  {
    var s := Final(Initial(maxConns), steps);
    RunKeepsFaith(Initial(maxConns), steps);
    StepKeepsFaith(s, last);
    RunKeepsFaith(Next(s, last), later);
    DoneStaysDone(Next(s, last), later, c);
  }

  /** After a shutdown no entry comes back but by a new insertion. */
  lemma {:induction false} ShutdownEmpties(s: State, later: seq<Step>)
    requires Runs(Next(s, CloseAll), later) && forall step | step in later :: !step.Insert?
    ensures Final(Next(s, CloseAll), later).conns == map[]
    decreases |later|
  {
    NoneInserted(Next(s, CloseAll), later);
  }

  lemma {:induction false} NoneInserted(s: State, steps: seq<Step>)
    requires Runs(s, steps) && s.conns == map[] && forall step | step in steps :: !step.Insert?
    ensures Final(s, steps).conns == map[]
    decreases |steps|
  {
    if steps != [] {
      assert steps[0] in steps;
      NoneInserted(Next(s, steps[0]), steps[1..]);
    }
  }

  // ---------------------------------------------------------------- who is let in

  lemma {:induction false} HandlersAreUsed(s: State, steps: seq<Step>)
    requires s.handlers.Keys <= s.used && Runs(s, steps)
    ensures Final(s, steps).handlers.Keys <= Final(s, steps).used
    decreases |steps|
  {
    if steps != [] {
      HandlersAreUsed(Next(s, steps[0]), steps[1..]);
    }
  }

  /** At any point of any run, whoever names an agent and is connected already, or finds no limit or room below it,
      may go on: it can insert its connection, which then is its agent's, and its exit takes just that away again.
      Nobody else gets to insert. */
  lemma Admission(maxConns: int, steps: seq<Step>, c: Conn, agent: Agent)
    requires Runs(Initial(maxConns), steps) && Enabled(Final(Initial(maxConns), steps), Test(c, agent))
    ensures var s := Final(Initial(maxConns), steps);
            var tested := Next(s, Test(c, agent));
            var letIn := agent != "" && (agent in s.conns || maxConns <= 0 || |s.conns| < maxConns);
            && tested.conns == s.conns
            && (Enabled(tested, Insert(c)) <==> letIn)
            && (letIn ==>
                  var inserted := Next(tested, Insert(c));
                  && inserted.conns == s.conns[agent := c]
                  && Enabled(inserted, Exit(c)) && Next(inserted, Exit(c)).conns == s.conns - {agent})
  {
    hide Next, Enabled, Runs, Final;
    HandlersAreUsed(Initial(maxConns), steps);
    LimitStays(Initial(maxConns), steps);
    AdmissionHere(Final(Initial(maxConns), steps), c, agent);
  }

  lemma AdmissionHere(s: State, c: Conn, agent: Agent)
    requires s.handlers.Keys <= s.used && Enabled(s, Test(c, agent))
    ensures var tested := Next(s, Test(c, agent));
            var letIn := agent != "" && (agent in s.conns || s.maxConns <= 0 || |s.conns| < s.maxConns);
            && tested.conns == s.conns
            && (Enabled(tested, Insert(c)) <==> letIn)
            && (letIn ==>
                  var inserted := Next(tested, Insert(c));
                  && inserted.conns == s.conns[agent := c]
                  && Enabled(inserted, Exit(c)) && Next(inserted, Exit(c)).conns == s.conns - {agent})
  {
    hide Next;
    TestLetsIn(s, c, agent);
    if agent != "" && (agent in s.conns || s.maxConns <= 0 || |s.conns| < s.maxConns) {
      InsertAndExit(Next(s, Test(c, agent)), c, agent);
    }
  }

  lemma TestLetsIn(s: State, c: Conn, agent: Agent)
    requires s.handlers.Keys <= s.used && Enabled(s, Test(c, agent))
    ensures var tested := Next(s, Test(c, agent));
            var letIn := agent != "" && (agent in s.conns || s.maxConns <= 0 || |s.conns| < s.maxConns);
            && tested.conns == s.conns
            && (Enabled(tested, Insert(c)) <==> letIn)
            && (letIn ==> tested.handlers[c] == Passed(agent))
  {
    hide InFlight;
    assert c !in s.handlers;
  }

  lemma InsertAndExit(s: State, c: Conn, agent: Agent)
    requires Enabled(s, Insert(c)) && s.handlers[c] == Passed(agent)
    ensures var inserted := Next(s, Insert(c));
      && inserted.conns == s.conns[agent := c]
      && Enabled(inserted, Exit(c)) && Next(inserted, Exit(c)).conns == s.conns - {agent}
  {}

  lemma {:induction false} LimitStays(s: State, steps: seq<Step>)
    requires Runs(s, steps)
    ensures Final(s, steps).maxConns == s.maxConns
    decreases |steps|
  {
    if steps != [] {
      LimitStays(Next(s, steps[0]), steps[1..]);
    }
  }

  // ---------------------------------------------------------------- the bound is reached

  /** As many different agents as there are numbers. */
  function Name(n: nat): (agent: Agent)
    ensures |agent| == n + 1
  {
    seq(n + 1, i => 'a')
  }

  function Names(n: nat, m: nat): set<Agent> {
    set c | n <= c < m :: Name(c)
  }

  lemma {:induction false} NamesSize(n: nat, m: nat)
    requires n <= m
    ensures |Names(n, m)| == m - n
    decreases m
  {
    if n < m {
      NamesSize(n, m - 1);
      OneMoreName(n, m - 1);
    }
  }

  lemma OneMoreName(n: nat, m: nat)
    requires n <= m
    ensures Name(m) !in Names(n, m) && Names(n, m + 1) == Names(n, m) + {Name(m)}
  {
    hide Name;
    assert forall c | n <= c < m :: |Name(c)| < |Name(m)|;
  }

  /** The handlers below n serve, those from n to m have tested for the agents of their names. */
  ghost predicate Seats(handlers: map<Conn, Handler>, n: nat, m: nat) {
    && (forall c | c in handlers :: c < m && if c < n then handlers[c].Serving? else handlers[c] == Passed(Name(c)))
    && (forall c | n <= c < m :: c in handlers)
  }

  lemma SeatsInFlight(handlers: map<Conn, Handler>, n: nat, m: nat)
    requires Seats(handlers, n, m) && n <= m
    ensures InFlight(handlers) == Names(n, m) && |InFlight(handlers)| == m - n
  {
    NamesSize(n, m);
    hide Name;
    forall a ensures a in InFlight(handlers) <==> a in Names(n, m) {
      if a in Names(n, m) {
        var c :| n <= c < m && Name(c) == a;
        assert c in handlers && handlers[c] == Passed(a);
      }
    }
  }

  /** The first n agents are connected, the next ones, up to m, are in flight. */
  ghost predicate Filled(s: State, n: nat, m: nat) {
    n <= m && Seats(s.handlers, n, m) && (forall c | c in s.used :: c < m) && s.conns.Keys == Names(0, n)
  }

  lemma OneMoreTest(s: State, n: nat, m: nat)
    requires Filled(s, n, m) && n < s.maxConns
    ensures Enabled(s, Test(m, Name(m)))
    ensures var s' := Next(s, Test(m, Name(m)));
      && Filled(s', n, m + 1) && s'.maxConns == s.maxConns
      && s'.peak == if m + 1 - n > s.peak then m + 1 - n else s.peak
  {
    NamesSize(0, n);
    var handlers := s.handlers[m := Passed(Name(m))];
    assert Name(m) != "";
    hide Name, Names, InFlight;
    assert Seats(handlers, n, m + 1);
    SeatsInFlight(handlers, n, m + 1);
    assert !TurnedAway(s, Name(m));
  }

  lemma OneMoreInsert(s: State, n: nat, m: nat)
    requires Filled(s, n, m) && n < m
    ensures Enabled(s, Insert(n))
    ensures var s' := Next(s, Insert(n));
            Filled(s', n + 1, m) && s'.maxConns == s.maxConns && s'.peak == s.peak
  {
    OneMoreName(0, n);
    hide Name, Names, InFlight;
    assert n in s.handlers && s.handlers[n] == Passed(Name(n));
    assert Seats(s.handlers[n := Serving(Name(n))], n + 1, m);
  }

  lemma {:induction false} RunConcat(s: State, a: seq<Step>, b: seq<Step>)
    requires Runs(s, a) && Runs(Final(s, a), b)
    ensures Runs(s, a + b) && Final(s, a + b) == Final(Final(s, a), b)
    decreases |a|
  {
    if a == [] {
      assert a + b == b;
    } else {
      RunConcat(Next(s, a[0]), a[1..], b);
      assert (a + b)[1..] == a[1..] + b;
    }
  }

  /** n agents connect one after the other. */
  function Connects(n: nat): seq<Step> {
    if n == 0 then [] else Connects(n - 1) + [Test(n - 1, Name(n - 1)), Insert(n - 1)]
  }

  /** p more agents test before any of them inserts. */
  function Tests(n: nat, p: nat): seq<Step> {
    if p == 0 then [] else Tests(n, p - 1) + [Test(n + p - 1, Name(n + p - 1))]
  }

  function Inserts(n: nat, p: nat): seq<Step>
    decreases p
  {
    if p == 0 then [] else [Insert(n)] + Inserts(n + 1, p - 1)
  }

  lemma TwoSteps(s: State, a: Step, b: Step)
    requires Enabled(s, a) && Enabled(Next(s, a), b)
    ensures Runs(s, [a, b]) && Final(s, [a, b]) == Next(Next(s, a), b)
    ensures Runs(s, [a]) && Final(s, [a]) == Next(s, a)
  {
    var s1, s2 := Next(s, a), Next(Next(s, a), b);
    assert Runs(s2, []) && Runs(s1, [b]) && Final(s1, [b]) == s2;
    assert Runs(s1, []) && [a, b][1..] == [b];
  }

  lemma OneStep(s: State, a: Step)
    requires Enabled(s, a)
    ensures Runs(s, [a]) && Final(s, [a]) == Next(s, a)
  {
    assert Runs(Next(s, a), []);
  }

  lemma NobodyYet(maxConns: int)
    ensures Runs(Initial(maxConns), []) && Final(Initial(maxConns), []) == Initial(maxConns)
    ensures Filled(Initial(maxConns), 0, 0) && Initial(maxConns).maxConns == maxConns && Initial(maxConns).peak == 0
  {
    assert Names(0, 0) == {};
  }

  lemma OneMoreConnects(s: State, n: nat)
    requires Filled(s, n, n) && n < s.maxConns && s.peak <= 1
    ensures var steps := [Test(n, Name(n)), Insert(n)];
      && Runs(s, steps) && Filled(Final(s, steps), n + 1, n + 1)
      && Final(s, steps).maxConns == s.maxConns && Final(s, steps).peak <= 1
  {
    hide Filled, Next, Enabled;
    OneMoreTest(s, n, n);
    OneMoreInsert(Next(s, Test(n, Name(n))), n, n + 1);
    TwoSteps(s, Test(n, Name(n)), Insert(n));
  }

  lemma {:induction false} ConnectsRun(maxConns: int, n: nat)
    requires n < maxConns
    ensures Runs(Initial(maxConns), Connects(n))
    ensures var s := Final(Initial(maxConns), Connects(n));
            Filled(s, n, n) && s.maxConns == maxConns && s.peak <= 1
  {
    hide Filled, Next, Enabled, Runs, Final, Initial;
    if n == 0 {
      NobodyYet(maxConns);
    } else {
      ConnectsRun(maxConns, n - 1);
      OneMoreConnects(Final(Initial(maxConns), Connects(n - 1)), n - 1);
      RunConcat(Initial(maxConns), Connects(n - 1), [Test(n - 1, Name(n - 1)), Insert(n - 1)]);
    }
  }

  lemma {:induction false} TestsRun(s: State, n: nat, p: nat)
    requires Filled(s, n, n) && n < s.maxConns && s.peak <= 1
    ensures Runs(s, Tests(n, p))
    ensures var s' := Final(s, Tests(n, p));
            Filled(s', n, n + p) && s'.maxConns == s.maxConns && s'.peak == if p > s.peak then p else s.peak
  {
    hide Filled, Next, Enabled;
    if p > 0 {
      TestsRun(s, n, p - 1);
      var before, test := Final(s, Tests(n, p - 1)), Test(n + p - 1, Name(n + p - 1));
      OneMoreTest(before, n, n + p - 1);
      OneStep(before, test);
      hide Runs, Final;
      RunConcat(s, Tests(n, p - 1), [test]);
    } else {
      assert Tests(n, p) == [];
    }
  }

  lemma {:induction false} InsertsRun(s: State, n: nat, p: nat)
    requires Filled(s, n, n + p)
    ensures Runs(s, Inserts(n, p))
    ensures var s' := Final(s, Inserts(n, p)); Filled(s', n + p, n + p) && s'.peak == s.peak
    decreases p
  {
    if p > 0 {
      OneMoreInsert(s, n, n + p);
      hide Filled;
      InsertsRun(Next(s, Insert(n)), n + 1, p - 1);
      assert Inserts(n, p)[1..] == Inserts(n + 1, p - 1);
    }
  }

  /** A race of p agents when one place is left. */
  function Race(maxConns: int, p: nat): seq<Step>
    requires maxConns > 0
  {
    Connects(maxConns - 1) + Tests(maxConns - 1, p) + Inserts(maxConns - 1, p)
  }

  lemma FilledSize(s: State, n: nat, m: nat)
    requires Filled(s, n, m)
    ensures |s.conns| == n
  {
    NamesSize(0, n);
  }

  /** For every p there is a run with at most p agents in flight at once that ends with maxConns - 1 + p connections. */
  lemma ConnectionBoundIsReached(maxConns: int, p: nat)
    requires maxConns > 0 && p >= 1
    ensures Runs(Initial(maxConns), Race(maxConns, p))
    ensures var s := Final(Initial(maxConns), Race(maxConns, p));
            s.peak == p && |s.conns| == maxConns - 1 + p
  {
    hide Connects, Tests, Inserts, Filled, Next, Enabled, Runs, Final;
    var s, n := Initial(maxConns), maxConns - 1;
    ConnectsRun(maxConns, n);
    TestsRun(Final(s, Connects(n)), n, p);
    RunConcat(s, Connects(n), Tests(n, p));
    InsertsRun(Final(s, Connects(n) + Tests(n, p)), n, p);
    RunConcat(s, Connects(n) + Tests(n, p), Inserts(n, p));
    FilledSize(Final(s, Race(maxConns, p)), n + p, n + p);
  }
}
