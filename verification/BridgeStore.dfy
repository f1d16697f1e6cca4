/** The in-memory stores of the A2A, ACP and MCP bridges as one transition system.

    Every operation on a store is a single atomic step: a load, a compare-and-swap, an add, a
    store or a delete. A handler is a thread that takes its steps in program order; the steps of
    different handlers and of the cleanup sweep interleave freely. */
module BridgeStore {
  import opened FiniteSets

  /** The most tasks, runs or sessions a bridge means to keep. */
  const CAP := 10000

  /** Seconds after which the sweep removes an entry. */
  const MAX_AGE := 3600

  datatype Bridge = A2A | ACP | MCP

  type Id = nat
  type ThreadId = nat

  /** Where a handler stands between two atomic operations. */
  datatype Thread =
    | Loaded(current: int)   // A2A send: the counter has been read
    | Reserved               // A2A send: the counter has been raised, nothing is stored
    | Checked                // ACP, MCP: the counter was below the cap, nothing is stored
    | Stored(id: Id)         // the entry is stored, the counter not yet raised
    | Counted(id: Id)        // stored and counted, the creator address not yet stored
    | Working(id: Id)        // the handler may store newer snapshots of its entry

  /** Where the sweep stands. */
  datatype Sweep =
    | Idle
    | Ranging(began: int)
    | Removed(began: int, id: Id)    // deleted from the entries
    | Forgotten(began: int, id: Id)  // and from the creator addresses

  /** When an entry was created, and whether its place was reserved by compare-and-swap. */
  datatype Birth = Birth(created: int, reserved: bool)

  /** `entries`, `counter` and `creators` are the store. The rest is the program counters and
      bookkeeping: every id ever created, the places reserved and not yet given back, the stores
      that brought a removed entry back, how often the sweep took an entry its handler had not
      counted yet, and the most handlers ever seen between check and add. */
  datatype State = State(
    bridge: Bridge,
    now: int,
    entries: set<Id>,
    counter: int,
    creators: set<Id>,
    threads: map<ThreadId, Thread>,
    sweep: Sweep,
    births: map<Id, Birth>,
    places: int,
    revivedReserved: nat,
    revivedOther: nat,
    overtaken: nat,
    peak: nat)

  datatype Step =
    | Tick(to: int)
    | Load(t: ThreadId)
    | CompareAndSwap(t: ThreadId)
    | StoreReserved(t: ThreadId, id: Id, created: int)
    | Subscribe(t: ThreadId, id: Id, created: int)
    | Check(t: ThreadId)
    | StoreChecked(t: ThreadId, id: Id, created: int)
    | Add(t: ThreadId)
    | StoreCreator(t: ThreadId)
    | Restore(t: ThreadId)
    | LoadForCancel(t: ThreadId, id: Id)
    | Finish(t: ThreadId)
    | SweepStart
    | SweepDelete(id: Id)
    | SweepForget
    | SweepAdd
    | SweepEnd

  function Initial(bridge: Bridge): State {
    State(bridge, 0, {}, 0, {}, map[], Idle, map[], 0, 0, 0, 0, 0)
  }

  // ---------------------------------------------------------------- the steps

  predicate Enabled(s: State, step: Step) {
    match step
    case Tick(to) => s.now <= to
    case Load(t) => s.bridge.A2A? && t !in s.threads
    case CompareAndSwap(t) => t in s.threads && s.threads[t].Loaded?
    case StoreReserved(t, id, created) => t in s.threads && s.threads[t].Reserved? && id !in s.births
        && created <= s.now
    case Subscribe(t, id, created) => s.bridge.A2A? && t !in s.threads && id !in s.births && created <= s.now
    case Check(t) => !s.bridge.A2A? && t !in s.threads
    case StoreChecked(t, id, created) => t in s.threads && s.threads[t].Checked? && id !in s.births && created <= s.now
    case Add(t) => t in s.threads && s.threads[t].Stored?
    case StoreCreator(t) => !s.bridge.MCP? && t in s.threads && s.threads[t].Counted?
    case Restore(t) => !s.bridge.MCP? && t in s.threads && s.threads[t].Working?
    case LoadForCancel(t, id) => !s.bridge.MCP? && t !in s.threads && id in s.entries
    case Finish(t) => t in s.threads && (s.threads[t].Working? || (s.bridge.MCP? && s.threads[t].Counted?))
    case SweepStart => s.sweep.Idle?
    case SweepDelete(id) => s.sweep.Ranging? && id in s.entries && id in s.births
        && s.sweep.began - s.births[id].created > MAX_AGE
    case SweepForget => s.sweep.Removed?
    case SweepAdd => s.sweep.Forgotten? && s.sweep.id in s.births
    case SweepEnd => s.sweep.Ranging?
  }

  function Next(s: State, step: Step): State
    requires Enabled(s, step)
  {
    match step
    case Tick(to) => s.(now := to)
    case Load(t) =>
      if s.counter >= CAP then s else s.(threads := s.threads[t := Loaded(s.counter)])
    case CompareAndSwap(t) =>
      // A lost race starts the loop over with a new load.
      if s.counter == s.threads[t].current
      then s.(counter := s.counter + 1, places := s.places + 1, threads := s.threads[t := Reserved])
      else s.(threads := s.threads - {t})
    case StoreReserved(t, id, created) =>
      s.(entries := s.entries + {id}, births := s.births[id := Birth(created, true)],
          threads := s.threads[t := Counted(id)])
    case Subscribe(t, id, created) =>
      s.(entries := s.entries + {id}, births := s.births[id := Birth(created, false)],
          threads := s.threads[t := Stored(id)])
    case Check(t) =>
      if s.counter >= CAP then s
      else
        var threads := s.threads[t := Checked];
        var busy := |At(threads, BeforeStore)| + |At(threads, BeforeAdd)|;
        s.(threads := threads, peak := if busy > s.peak then busy else s.peak)
    case StoreChecked(t, id, created) =>
      s.(entries := s.entries + {id}, births := s.births[id := Birth(created, false)],
          threads := s.threads[t := Stored(id)])
    case Add(t) =>
      s.(counter := s.counter + 1, threads := s.threads[t := Counted(s.threads[t].id)])
    case StoreCreator(t) =>
      s.(creators := s.creators + {s.threads[t].id}, threads := s.threads[t := Working(s.threads[t].id)])
    case Restore(t) =>
      var id := s.threads[t].id;
      var back := if id in s.entries then 0 else 1;
      var reserved := id in s.births && s.births[id].reserved;
      s.(entries := s.entries + {id},
         revivedReserved := s.revivedReserved + (if reserved then back else 0),
         revivedOther := s.revivedOther + (if reserved then 0 else back))
    case LoadForCancel(t, id) => s.(threads := s.threads[t := Working(id)])
    case Finish(t) => s.(threads := s.threads - {t})
    case SweepStart => s.(sweep := Ranging(s.now))
    case SweepDelete(id) =>
      s.(entries := s.entries - {id}, sweep := Removed(s.sweep.began, id),
         overtaken := s.overtaken + if exists t :: t in s.threads && s.threads[t] == Stored(id) then 1 else 0)
    case SweepForget => s.(creators := s.creators - {s.sweep.id}, sweep := Forgotten(s.sweep.began, s.sweep.id))
    case SweepAdd =>
      s.(counter := s.counter - 1, sweep := Ranging(s.sweep.began),
         places := s.places - if s.births[s.sweep.id].reserved then 1 else 0)
    case SweepEnd => s.(sweep := Idle)
  }

  predicate Runs(s: State, steps: seq<Step>)
    decreases |steps|
  {
    steps == [] || (Enabled(s, steps[0]) && Runs(Next(s, steps[0]), steps[1..]))
  }

  function Final(s: State, steps: seq<Step>): State
    requires Runs(s, steps)
    decreases |steps|
  {
    if steps == [] then s else Final(Next(s, steps[0]), steps[1..])
  }

  // ---------------------------------------------------------------- counting threads and entries

  /** The program points at which a handler holds a place or an entry it has not yet balanced. */
  datatype Point = Reservation | BeforeStore | BeforeAdd | Elsewhere

  function PointOf(th: Thread): Point {
    match th
    case Reserved => Reservation
    case Checked => BeforeStore
    case Stored(_) => BeforeAdd
    case _ => Elsewhere
  }

  function At(threads: map<ThreadId, Thread>, p: Point): set<ThreadId> {
    set t | t in threads && PointOf(threads[t]) == p
  }

  lemma Leaves(threads: map<ThreadId, Thread>, t: ThreadId, p: Point)
    requires t in threads
    ensures |At(threads, p)| == |At(threads - {t}, p)| + if PointOf(threads[t]) == p then 1 else 0
  {
    if PointOf(threads[t]) == p {
      assert At(threads, p) == At(threads - {t}, p) + {t};
    } else {
      assert At(threads, p) == At(threads - {t}, p);
    }
  }

  lemma Enters(threads: map<ThreadId, Thread>, t: ThreadId, th: Thread, p: Point)
    requires t !in threads
    ensures |At(threads[t := th], p)| == |At(threads, p)| + if PointOf(th) == p then 1 else 0
  {
    assert threads[t := th] - {t} == threads;
    Leaves(threads[t := th], t, p);
  }

  lemma Moves(threads: map<ThreadId, Thread>, t: ThreadId, th: Thread, p: Point)
    requires t in threads
    ensures |At(threads[t := th], p)| + (if PointOf(threads[t]) == p then 1 else 0)
         == |At(threads, p)| + (if PointOf(th) == p then 1 else 0)
  {
    assert threads[t := th] - {t} == threads - {t};
    Leaves(threads, t, p);
    Leaves(threads[t := th], t, p);
  }

  /** The entries whose place was, or was not, reserved by compare-and-swap. */
  function EntriesOf(entries: set<Id>, births: map<Id, Birth>, reserved: bool): set<Id> {
    set id | id in entries && id in births && births[id].reserved == reserved
  }

  lemma EntryAdded(entries: set<Id>, births: map<Id, Birth>, id: Id, reserved: bool)
    requires id in births && id !in entries
    ensures |EntriesOf(entries + {id}, births, reserved)|
         == |EntriesOf(entries, births, reserved)| + if births[id].reserved == reserved then 1 else 0
  {
    if births[id].reserved == reserved {
      assert EntriesOf(entries + {id}, births, reserved) == EntriesOf(entries, births, reserved) + {id};
    } else {
      assert EntriesOf(entries + {id}, births, reserved) == EntriesOf(entries, births, reserved);
    }
  }

  lemma EntryBorn(entries: set<Id>, births: map<Id, Birth>, id: Id, birth: Birth, reserved: bool)
    requires id !in births && id !in entries
    ensures |EntriesOf(entries + {id}, births[id := birth], reserved)|
         == |EntriesOf(entries, births, reserved)| + if birth.reserved == reserved then 1 else 0
  {
    assert EntriesOf(entries, births[id := birth], reserved) == EntriesOf(entries, births, reserved);
    EntryAdded(entries, births[id := birth], id, reserved);
  }

  lemma EntryRemoved(entries: set<Id>, births: map<Id, Birth>, id: Id, reserved: bool)
    requires id in births && id in entries
    ensures |EntriesOf(entries - {id}, births, reserved)| + (if births[id].reserved == reserved then 1 else 0)
         == |EntriesOf(entries, births, reserved)|
  {
    assert entries - {id} + {id} == entries;
    EntryAdded(entries - {id}, births, id, reserved);
  }

  lemma EntriesSplit(entries: set<Id>, births: map<Id, Birth>)
    requires entries <= births.Keys
    ensures |entries| == |EntriesOf(entries, births, true)| + |EntriesOf(entries, births, false)|
  {
    var yes, no := EntriesOf(entries, births, true), EntriesOf(entries, births, false);
    assert entries == yes + no;
    assert yes !! no;
  }

  // ---------------------------------------------------------------- conservation

  /** An entry the sweep has deleted and not yet taken off the counter. */
  function Pending(s: State, reserved: bool): nat {
    if (s.sweep.Removed? || s.sweep.Forgotten?) && s.sweep.id in s.births && s.births[s.sweep.id].reserved == reserved
    then 1 else 0
  }

  predicate WellFormed(s: State) {
    && s.entries <= s.births.Keys
    && (forall t | t in s.threads && (s.threads[t].Stored? || s.threads[t].Counted? || s.threads[t].Working?) ::
        s.threads[t].id in s.births)
    && (s.sweep.Removed? || s.sweep.Forgotten? ==> s.sweep.id in s.births)
  }

  /** The counter against the entries, place by place, whatever the interleaving. */
  ghost predicate Conserved(s: State) {
    && s.places + s.revivedReserved
        == |EntriesOf(s.entries, s.births, true)| + |At(s.threads, Reservation)| + Pending(s, true)
    && s.counter - s.places + |At(s.threads, BeforeAdd)| + s.revivedOther
        == |EntriesOf(s.entries, s.births, false)| + Pending(s, false)
  }

  ghost predicate Bounded(s: State) {
    && (s.bridge.A2A? ==> At(s.threads, BeforeStore) == {})
    && (!s.bridge.A2A? ==> forall t | t in s.threads :: !s.threads[t].Loaded?)
    && (!s.bridge.A2A? ==> s.counter + |At(s.threads, BeforeStore)| + |At(s.threads, BeforeAdd)| <= CAP - 1 + s.peak)
    && (forall t | t in s.threads && s.threads[t].Loaded? :: s.threads[t].current < CAP)
  }

  ghost predicate Inv(s: State) {
    WellFormed(s) && Conserved(s) && Bounded(s)
  }

  lemma ThreadMoves(s: State, t: ThreadId, th: Thread)
    requires t in s.threads
    ensures forall p: Point :: |At(s.threads[t := th], p)| + (if PointOf(s.threads[t]) == p then 1 else 0)
                            == |At(s.threads, p)| + (if PointOf(th) == p then 1 else 0)
  {
    forall p: Point { Moves(s.threads, t, th, p); }
  }

  lemma ThreadEnters(s: State, t: ThreadId, th: Thread)
    requires t !in s.threads
    ensures forall p: Point :: |At(s.threads[t := th], p)| == |At(s.threads, p)| + if PointOf(th) == p then 1 else 0
  {
    forall p: Point { Enters(s.threads, t, th, p); }
  }

  lemma ThreadLeaves(s: State, t: ThreadId)
    requires t in s.threads
    ensures forall p: Point ::
              |At(s.threads, p)| == |At(s.threads - {t}, p)| + if PointOf(s.threads[t]) == p then 1 else 0
  {
    forall p: Point { Leaves(s.threads, t, p); }
  }

  /** Birth of a fresh id changes only the entries of its own kind. */
  lemma Born(s: State, id: Id, birth: Birth)
    requires WellFormed(s) && id !in s.births
    ensures forall reserved: bool ::
              |EntriesOf(s.entries + {id}, s.births[id := birth], reserved)|
              == |EntriesOf(s.entries, s.births, reserved)| + if birth.reserved == reserved then 1 else 0
    ensures s.entries + {id} <= s.births[id := birth].Keys
  {
    forall reserved: bool { EntryBorn(s.entries, s.births, id, birth, reserved); }
  }

  lemma EnteringStepKeeps(s: State, step: Step)
    requires Inv(s) && Enabled(s, step)
    requires step.Load? || step.Check? || step.LoadForCancel?
    ensures Inv(Next(s, step))
  {
    match step
    case Load(t) => ThreadEnters(s, t, Loaded(s.counter));
    case Check(t) => ThreadEnters(s, t, Checked);
    case LoadForCancel(t, id) => ThreadEnters(s, t, Working(id));
    case _ =>
  }

  lemma CounterStepKeeps(s: State, step: Step)
    requires Inv(s) && Enabled(s, step)
    requires step.CompareAndSwap? || step.Add?
    ensures Inv(Next(s, step))
  {
    match step
    case CompareAndSwap(t) =>
      ThreadMoves(s, t, Reserved);
      ThreadLeaves(s, t);
    case Add(t) => ThreadMoves(s, t, Counted(s.threads[t].id));
    case _ =>
  }

  lemma LaterStepKeeps(s: State, step: Step)
    requires Inv(s) && Enabled(s, step)
    requires step.StoreCreator? || step.Finish?
    ensures Inv(Next(s, step))
  {
    match step
    case StoreCreator(t) => ThreadMoves(s, t, Working(s.threads[t].id));
    case Finish(t) => ThreadLeaves(s, t);
    case _ =>
  }

  lemma StoreStepKeeps(s: State, step: Step)
    requires Inv(s) && Enabled(s, step)
    requires step.StoreReserved? || step.StoreChecked?
    ensures Inv(Next(s, step))
  {
    match step
    case StoreReserved(t, id, created) =>
      ThreadMoves(s, t, Counted(id));
      Born(s, id, Birth(created, true));
    case StoreChecked(t, id, created) =>
      ThreadMoves(s, t, Stored(id));
      Born(s, id, Birth(created, false));
    case _ =>
  }

  lemma SubscribeStepKeeps(s: State, step: Step)
    requires Inv(s) && Enabled(s, step) && step.Subscribe?
    ensures Inv(Next(s, step))
  {
    ThreadEnters(s, step.t, Stored(step.id));
    Born(s, step.id, Birth(step.created, false));
  }

  lemma RestoreStepKeeps(s: State, t: ThreadId)
    requires Inv(s) && Enabled(s, Restore(t))
    ensures Inv(Next(s, Restore(t)))
  {
    var id := s.threads[t].id;
    if id in s.entries {
      assert s.entries + {id} == s.entries;
    } else {
      EntryAdded(s.entries, s.births, id, true);
      EntryAdded(s.entries, s.births, id, false);
    }
  }

  lemma SweepStepKeeps(s: State, step: Step)
    requires Inv(s) && Enabled(s, step)
    requires step.Tick? || step.SweepStart? || step.SweepDelete? || step.SweepForget? || step.SweepAdd?
        || step.SweepEnd?
    ensures Inv(Next(s, step))
  {
    if step.SweepDelete? {
      EntryRemoved(s.entries, s.births, step.id, true);
      EntryRemoved(s.entries, s.births, step.id, false);
    }
  }

  lemma StepKeeps(s: State, step: Step)
    requires Inv(s) && Enabled(s, step)
    ensures Inv(Next(s, step))
  {
    if step.StoreReserved? || step.StoreChecked? {
      StoreStepKeeps(s, step);
    } else if step.Subscribe? {
      SubscribeStepKeeps(s, step);
    } else if step.Restore? {
      RestoreStepKeeps(s, step.t);
    } else if step.Tick? || step.SweepStart? || step.SweepDelete? || step.SweepForget? || step.SweepAdd?
        || step.SweepEnd? {
      SweepStepKeeps(s, step);
    } else if step.Load? || step.Check? || step.LoadForCancel? {
      EnteringStepKeeps(s, step);
    } else if step.CompareAndSwap? || step.Add? {
      CounterStepKeeps(s, step);
    } else {
      LaterStepKeeps(s, step);
    }
  }

  lemma {:induction false} RunKeeps(s: State, steps: seq<Step>)
    requires Inv(s) && Runs(s, steps)
    ensures Inv(Final(s, steps))
    decreases |steps|
  {
    if steps != [] {
      StepKeeps(s, steps[0]);
      RunKeeps(Next(s, steps[0]), steps[1..]);
    }
  }

  lemma InitialInv(bridge: Bridge)
    ensures Inv(Initial(bridge))
  {
    assert forall p: Point :: At(map[], p) == {};
    assert forall reserved: bool :: EntriesOf({}, map[], reserved) == {};
  }

  /** In every interleaving the counter is the number of entries, corrected by the handlers between
      raising it and storing, by those between storing and raising it, by a sweep between delete and
      decrement, and by the stores that brought a swept entry back. */
  lemma CounterConservation(bridge: Bridge, steps: seq<Step>)
    requires Runs(Initial(bridge), steps)
    ensures var s := Final(Initial(bridge), steps);
            s.counter + |At(s.threads, BeforeAdd)| + s.revivedReserved + s.revivedOther
            == |s.entries| + |At(s.threads, Reservation)| + if s.sweep.Removed? || s.sweep.Forgotten? then 1 else 0
  {
    InitialInv(bridge);
    hide Inv, At;
    RunKeeps(Initial(bridge), steps);
    Balanced(Final(Initial(bridge), steps));
  }

  lemma Balanced(s: State)
    requires Inv(s)
    ensures s.counter + |At(s.threads, BeforeAdd)| + s.revivedReserved + s.revivedOther
            == |s.entries| + |At(s.threads, Reservation)| + if s.sweep.Removed? || s.sweep.Forgotten? then 1 else 0
  {
    EntriesSplit(s.entries, s.births);
  }

  /** No handler between its counter operation and its store, and no sweep in the middle of an entry. */
  predicate Quiescent(s: State) {
    && (forall t | t in s.threads ::
          s.threads[t].Working? || s.threads[t].Loaded? || (s.bridge.MCP? && s.threads[t].Counted?))
    && (s.sweep.Idle? || s.sweep.Ranging?)
  }

  /** At quiescence the counter is exact if and only if no swept entry was ever stored again. */
  lemma CounterIsExactIff(bridge: Bridge, steps: seq<Step>)
    requires Runs(Initial(bridge), steps) && Quiescent(Final(Initial(bridge), steps))
    ensures var s := Final(Initial(bridge), steps);
            s.counter == |s.entries| <==> s.revivedReserved + s.revivedOther == 0
  {
    CounterConservation(bridge, steps);
    var s := Final(Initial(bridge), steps);
    assert At(s.threads, BeforeAdd) == {} && At(s.threads, Reservation) == {};
  }

  // ---------------------------------------------------------------- admission

  /** The handlers that have not counted their entry and whose entry is gone. */
  function Orphans(s: State): set<ThreadId> {
    set t | t in s.threads && s.threads[t].Stored? && s.threads[t].id !in s.entries
  }

  ghost predicate StoredDistinct(s: State) {
    && (forall t | t in s.threads && s.threads[t].Stored? ::
        s.threads[t].id in s.births && !s.births[s.threads[t].id].reserved)
    && (forall t, t' | t in s.threads && t' in s.threads && s.threads[t].Stored? && s.threads[t'].Stored? && t != t' ::
          s.threads[t].id != s.threads[t'].id)
  }

  ghost predicate OrphansCounted(s: State) {
    StoredDistinct(s) && |Orphans(s)| <= s.overtaken
  }

  ghost predicate Admitted(s: State) {
    s.places <= CAP + s.overtaken + s.revivedOther
  }

  function IdsOf(threads: map<ThreadId, Thread>, ts: set<ThreadId>): set<Id>
    requires forall t | t in ts :: t in threads && threads[t].Stored?
  {
    set t | t in ts :: threads[t].id
  }

  lemma {:induction false} DistinctIds(threads: map<ThreadId, Thread>, ts: set<ThreadId>)
    requires forall t | t in ts :: t in threads && threads[t].Stored?
    requires forall t, t' | t in ts && t' in ts && t != t' :: threads[t].id != threads[t'].id
    ensures |IdsOf(threads, ts)| == |ts|
    decreases |ts|
  {
    if ts != {} {
      var t :| t in ts;
      DistinctIds(threads, ts - {t});
      assert IdsOf(threads, ts) == IdsOf(threads, ts - {t}) + {threads[t].id};
    }
  }

  /** The counter falls behind the reserved places only by revived entries and by overtaken handlers. */
  lemma NeverFarBehind(s: State)
    requires WellFormed(s) && Conserved(s) && OrphansCounted(s)
    ensures s.places + Pending(s, false) <= s.counter + s.overtaken + s.revivedOther
  {
    hide WellFormed, StoredDistinct;
    var live := At(s.threads, BeforeAdd) - Orphans(s);
    LiveUncounted(s, live);
    assert At(s.threads, BeforeAdd) == live + Orphans(s);
    assert live !! Orphans(s);
  }

  lemma LiveUncounted(s: State, live: set<ThreadId>)
    requires StoredDistinct(s) && live == At(s.threads, BeforeAdd) - Orphans(s)
    ensures |live| <= |EntriesOf(s.entries, s.births, false)|
  {
    DistinctIds(s.threads, live);
    SubsetSize(IdsOf(s.threads, live), EntriesOf(s.entries, s.births, false));
  }

  lemma OrphansStep(s: State, step: Step)
    requires WellFormed(s) && Enabled(s, step) && OrphansCounted(s)
    ensures OrphansCounted(Next(s, step))
  {
    StoredStayDistinct(s, step);
    hide StoredDistinct, At;
    var s' := Next(s, step);
    if step.SweepDelete? {
      SweepOrphans(s, step.id);
    } else {
      NoNewOrphans(s, step);
      SubsetSize(Orphans(s'), Orphans(s));
    }
  }

  lemma StoredStayDistinct(s: State, step: Step)
    requires WellFormed(s) && Enabled(s, step) && StoredDistinct(s)
    ensures StoredDistinct(Next(s, step))
  {}

  lemma NoNewOrphans(s: State, step: Step)
    requires Enabled(s, step) && !step.SweepDelete?
    ensures Orphans(Next(s, step)) <= Orphans(s) && Next(s, step).overtaken == s.overtaken
  {}

  lemma SweepOrphans(s: State, id: Id)
    requires Enabled(s, SweepDelete(id)) && OrphansCounted(s)
    ensures |Orphans(Next(s, SweepDelete(id)))| <= Next(s, SweepDelete(id)).overtaken
  {
    var s' := Next(s, SweepDelete(id));
    if t :| t in s.threads && s.threads[t] == Stored(id) {
      SubsetSize(Orphans(s'), Orphans(s) + {t});
    } else {
      SubsetSize(Orphans(s'), Orphans(s));
    }
  }

  lemma AdmittedStep(s: State, step: Step)
    requires Inv(s) && Enabled(s, step) && OrphansCounted(s) && Admitted(s)
    ensures Admitted(Next(s, step))
  {
    if step.CompareAndSwap? {
      NeverFarBehind(s);
    }
  }

  lemma {:induction false} RunAdmits(s: State, steps: seq<Step>)
    requires Inv(s) && OrphansCounted(s) && Admitted(s) && Runs(s, steps)
    ensures Inv(Final(s, steps)) && OrphansCounted(Final(s, steps)) && Admitted(Final(s, steps))
    decreases |steps|
  {
    if steps != [] {
      assert WellFormed(s);
      hide Inv, OrphansCounted, Admitted, Next, Enabled, WellFormed;
      StepKeeps(s, steps[0]);
      OrphansStep(s, steps[0]);
      AdmittedStep(s, steps[0]);
      RunAdmits(Next(s, steps[0]), steps[1..]);
    }
  }

  /** The live subscribed tasks, and one the sweep has deleted and not yet taken off the counter. */
  function Subscribed(s: State): nat {
    |EntriesOf(s.entries, s.births, false)| + Pending(s, false)
  }

  lemma InitialAdmits()
    ensures Inv(Initial(A2A)) && OrphansCounted(Initial(A2A)) && Admitted(Initial(A2A))
  {
    InitialInv(A2A);
    assert Orphans(Initial(A2A)) == {};
  }

  /** In every interleaving of the A2A bridge the counter is at most the cap, plus the subscribed
      tasks, plus one for every time the sweep took a task its subscriber had not counted yet. */
  lemma A2AAdmission(steps: seq<Step>)
    requires Runs(Initial(A2A), steps)
    ensures var s := Final(Initial(A2A), steps);
            s.counter <= 10000 + s.overtaken + Subscribed(s)
  {
    InitialAdmits();
    RunAdmits(Initial(A2A), steps);
  }

  /** A step of some other handler, or of the sweep, or of the clock. */
  predicate NotOf(step: Step, t: ThreadId) {
    match step
    case Load(u) => u != t
    case CompareAndSwap(u) => u != t
    case StoreReserved(u, _, _) => u != t
    case Subscribe(u, _, _) => u != t
    case Check(u) => u != t
    case StoreChecked(u, _, _) => u != t
    case Add(u) => u != t
    case StoreCreator(u) => u != t
    case Restore(u) => u != t
    case LoadForCancel(u, _) => u != t
    case Finish(u) => u != t
    case _ => true
  }

  lemma {:induction false} ThreadWaits(s: State, steps: seq<Step>, t: ThreadId)
    requires Runs(s, steps) && t in s.threads && forall step | step in steps :: NotOf(step, t)
    ensures t in Final(s, steps).threads && Final(s, steps).threads[t] == s.threads[t]
    decreases |steps|
  {
    if steps != [] {
      assert steps[0] in steps;
      ThreadWaits(Next(s, steps[0]), steps[1..], t);
    }
  }

  /** A send that loads the counter below the cap and swaps later takes its place exactly if the counter is then what
      it loaded, whatever the others did meanwhile; otherwise it starts over. At the cap it is refused. */
  lemma SwapSucceedsIff(s: State, t: ThreadId, during: seq<Step>)
    requires Enabled(s, Load(t)) && Runs(Next(s, Load(t)), during) && forall step | step in during :: NotOf(step, t)
    ensures var s' := Final(Next(s, Load(t)), during);
      if s.counter >= 10000 then !Enabled(Next(s, Load(t)), CompareAndSwap(t))
      else
        && Enabled(s', CompareAndSwap(t))
        && (s'.counter == s.counter ==>
              && Next(s', CompareAndSwap(t)).counter == s.counter + 1
              && Next(s', CompareAndSwap(t)).threads == s'.threads[t := Reserved])
        && (s'.counter != s.counter ==>
              && Next(s', CompareAndSwap(t)).counter == s'.counter
              && t !in Next(s', CompareAndSwap(t)).threads)
  {
    if s.counter < CAP {
      ThreadWaits(Next(s, Load(t)), during, t);
    }
  }

  predicate SendOnly(steps: seq<Step>) {
    forall step | step in steps :: !step.Subscribe?
  }

  predicate OnlyReserved(s: State) {
    && s.bridge.A2A?
    && (forall id | id in s.births :: s.births[id].reserved)
    && (forall t | t in s.threads :: !s.threads[t].Stored? && !s.threads[t].Checked?)
    && s.counter <= CAP
  }

  lemma {:induction false} SendOnlyKeeps(s: State, steps: seq<Step>)
    requires Inv(s) && OnlyReserved(s) && Runs(s, steps) && SendOnly(steps)
    ensures Inv(Final(s, steps)) && OnlyReserved(Final(s, steps))
    decreases |steps|
  {
    if steps != [] {
      assert steps[0] in steps;
      StepKeeps(s, steps[0]);
      SendOnlyKeeps(Next(s, steps[0]), steps[1..]);
    }
  }

  /** Without subscriptions the compare-and-swap loop never lets the counter pass the cap. */
  lemma SendOnlyAdmission(steps: seq<Step>)
    requires Runs(Initial(A2A), steps) && SendOnly(steps)
    ensures Final(Initial(A2A), steps).counter <= 10000
  {
    InitialInv(A2A);
    SendOnlyKeeps(Initial(A2A), steps);
  }

  lemma {:induction false} BridgeStays(s: State, steps: seq<Step>)
    requires Runs(s, steps)
    ensures Final(s, steps).bridge == s.bridge
    decreases |steps|
  {
    if steps != [] {
      BridgeStays(Next(s, steps[0]), steps[1..]);
    }
  }

  /** Checking first and adding later overshoots by the handlers in between: the counter and those
      in between stay below the cap plus the most handlers ever in between. */
  lemma CheckThenAddAdmission(bridge: Bridge, steps: seq<Step>)
    requires !bridge.A2A? && Runs(Initial(bridge), steps)
    ensures var s := Final(Initial(bridge), steps);
            s.counter + |At(s.threads, BeforeStore)| + |At(s.threads, BeforeAdd)| <= 9999 + s.peak
  {
    InitialInv(bridge);
    RunKeeps(Initial(bridge), steps);
    BridgeStays(Initial(bridge), steps);
  }

  // ---------------------------------------------------------------- exactly when the cap holds

  /** Every handler between store and add is at most d seconds past the birth of its entry. */
  ghost predicate InTime(s: State, d: int) {
    forall t | t in s.threads && s.threads[t].Stored? ::
      s.threads[t].id in s.births && s.now - s.births[s.threads[t].id].created <= d
  }

  /** In every state of the run. */
  ghost predicate CountedWithin(s: State, steps: seq<Step>, d: int)
    requires Runs(s, steps)
    decreases |steps|
  {
    InTime(s, d) && (steps != [] ==> CountedWithin(Next(s, steps[0]), steps[1..], d))
  }

  predicate SweepBegan(s: State) {
    s.sweep.Idle? || s.sweep.began <= s.now
  }

  lemma {:induction false} NoneOvertaken(s: State, steps: seq<Step>, d: int)
    requires Runs(s, steps) && CountedWithin(s, steps, d) && d <= MAX_AGE && SweepBegan(s)
    ensures Final(s, steps).overtaken == s.overtaken
    decreases |steps|
  {
    if steps != [] {
      assert InTime(s, d);
      NoneOvertaken(Next(s, steps[0]), steps[1..], d);
    }
  }

  /** No run in which subscribers count within d seconds takes the counter past the cap and the subscribed tasks. */
  ghost predicate CapHolds(d: int) {
    forall steps: seq<Step> | Runs(Initial(A2A), steps) && CountedWithin(Initial(A2A), steps, d) ::
      Final(Initial(A2A), steps).counter <= 10000 + Subscribed(Final(Initial(A2A), steps))
  }

  /** That is so exactly when they count before the sweep may take their tasks. */
  lemma CapHoldsIff(d: int)
    ensures CapHolds(d) <==> d <= 3600
  {
    if d <= MAX_AGE {
      forall steps: seq<Step> | Runs(Initial(A2A), steps) && CountedWithin(Initial(A2A), steps, d)
        ensures Final(Initial(A2A), steps).counter <= 10000 + Subscribed(Final(Initial(A2A), steps))
      {
        A2AAdmission(steps);
        NoneOvertaken(Initial(A2A), steps, d);
      }
    } else {
      SlowSubscriberOverfills(d);
      var s := Final(Initial(A2A), SlowSubscriber());
      assert EntriesOf(s.entries, s.births, false) == {};
    }
  }

  // ---------------------------------------------------------------- building runs

  lemma {:induction false} RunConcat(s: State, a: seq<Step>, b: seq<Step>)
    requires Runs(s, a) && Runs(Final(s, a), b)
    ensures Runs(s, a + b) && Final(s, a + b) == Final(Final(s, a), b)
    decreases |a|
  {
    if a == [] {
      assert a + b == b;
    } else {
      RunConcat(Next(s, a[0]), a[1..], b);
      assert (a + b)[1..] == a[1..] + b;
    }
  }

  lemma RunSnoc(s: State, steps: seq<Step>, step: Step)
    requires Runs(s, steps) && Enabled(Final(s, steps), step)
    ensures Runs(s, steps + [step]) && Final(s, steps + [step]) == Next(Final(s, steps), step)
  {
    var s' := Final(s, steps);
    assert Runs(Next(s', step), []) && Runs(s', [step]);
    RunConcat(s, steps, [step]);
  }

  /** Nothing is created before time zero and the clock goes no further than `to`. */
  predicate Early(steps: seq<Step>, to: int) {
    forall step | step in steps ::
      match step
      case Tick(now) => now <= to
      case StoreReserved(_, _, created) => created >= 0
      case Subscribe(_, _, created) => created >= 0
      case StoreChecked(_, _, created) => created >= 0
      case _ => true
  }

  ghost predicate Young(s: State, to: int) {
    s.now <= to && forall id | id in s.births :: s.births[id].created >= 0
  }

  lemma EarlyParts(a: seq<Step>, b: seq<Step>, to: int)
    requires Early(a, to) && Early(b, 0) && to >= 0
    ensures Early(a + b, to)
  {}

  /** In a run that ends by time `to`, no handler is later than that. */
  lemma {:induction false} EarlyRuns(s: State, steps: seq<Step>, to: int)
    requires Runs(s, steps) && Inv(s) && Young(s, to) && Early(steps, to)
    ensures CountedWithin(s, steps, to) && StoredWithin(s, steps, to)
    decreases |steps|
  {
    if steps != [] {
      assert steps[0] in steps;
      StepKeeps(s, steps[0]);
      assert forall step | step in steps[1..] :: step in steps;
      assert Young(Next(s, steps[0]), to);
      EarlyRuns(Next(s, steps[0]), steps[1..], to);
    }
  }

  /** n sends, each up to its place on the counter. */
  function Sends(n: nat, first: ThreadId): seq<Step> {
    if n == 0 then [] else Sends(n - 1, first) + [Load(first + n - 1)] + [CompareAndSwap(first + n - 1)]
  }

  lemma {:induction false} SendsRun(s: State, n: nat, first: ThreadId)
    requires s.bridge.A2A? && s.counter + n <= CAP && forall t | t in s.threads :: t < first
    ensures Runs(s, Sends(n, first))
    ensures var s' := Final(s, Sends(n, first));
      && s'.counter == s.counter + n && s'.bridge == s.bridge && s'.now == s.now
      && s'.entries == s.entries && s'.births == s.births && s'.sweep == s.sweep
      && (forall t | t in s.threads :: t in s'.threads && s'.threads[t] == s.threads[t])
      && (forall t | t in s'.threads :: t in s.threads || (first <= t < first + n && s'.threads[t] == Reserved))
  {
    if n > 0 {
      SendsRun(s, n - 1, first);
      var before, t := Sends(n - 1, first), first + n - 1;
      RunSnoc(s, before, Load(t));
      RunSnoc(s, before + [Load(t)], CompareAndSwap(t));
    }
  }

  lemma {:induction false} SendsAreEarly(n: nat, first: ThreadId)
    ensures Early(Sends(n, first), 0)
  {
    if n > 0 {
      SendsAreEarly(n - 1, first);
    }
  }

  /** A subscription stored, and swept before it is counted. */
  function SweptUncounted(): seq<Step> {
    [] + [Subscribe(0, 7, 0)] + [Tick(MAX_AGE + 1)] + [SweepStart] + [SweepDelete(7)] + [SweepForget] + [SweepAdd]
        + [SweepEnd]
  }

  lemma SweptUncountedRuns()
    ensures Runs(Initial(A2A), SweptUncounted())
    ensures Final(Initial(A2A), SweptUncounted())
         == State(A2A, MAX_AGE + 1, {}, -1, {}, map[0 := Stored(7)], Idle, map[7 := Birth(0, false)], 0, 0, 0, 1, 0)
  {
    var s := Initial(A2A);
    var steps := [] + [Subscribe(0, 7, 0)];
    RunSnoc(s, [], Subscribe(0, 7, 0));
    RunSnoc(s, steps, Tick(MAX_AGE + 1));
    RunSnoc(s, steps + [Tick(MAX_AGE + 1)], SweepStart);
    RunSnoc(s, steps + [Tick(MAX_AGE + 1)] + [SweepStart], SweepDelete(7));
    RunSnoc(s, steps + [Tick(MAX_AGE + 1)] + [SweepStart] + [SweepDelete(7)], SweepForget);
    RunSnoc(s, steps + [Tick(MAX_AGE + 1)] + [SweepStart] + [SweepDelete(7)] + [SweepForget], SweepAdd);
    RunSnoc(s, steps + [Tick(MAX_AGE + 1)] + [SweepStart] + [SweepDelete(7)] + [SweepForget] + [SweepAdd], SweepEnd);
  }

  /** The subscriber counts its task after as many sends as the counter then has room for. */
  function SlowSubscriber(): seq<Step> {
    SweptUncounted() + Sends(CAP + 1, 1) + [Add(0)]
  }

  lemma SlowSubscriberRuns()
    ensures Runs(Initial(A2A), SlowSubscriber())
    ensures var s := Final(Initial(A2A), SlowSubscriber());
            s.counter == 10001 && s.entries == {} && s.sweep.Idle?
  {
    var s := Initial(A2A);
    SweptUncountedRuns();
    SendsRun(Final(s, SweptUncounted()), CAP + 1, 1);
    hide SweptUncounted, Sends, Early;
    RunConcat(s, SweptUncounted(), Sends(CAP + 1, 1));
    RunSnoc(s, SweptUncounted() + Sends(CAP + 1, 1), Add(0));
  }

  lemma SlowSubscriberIsEarly(d: int)
    requires d > 3600
    ensures Early(SlowSubscriber(), d)
  {
    SendsAreEarly(CAP + 1, 1);
    assert Early(SweptUncounted(), d) && Early([Add(0)], 0);
    hide SweptUncounted, Sends, Early;
    EarlyParts(SweptUncounted(), Sends(CAP + 1, 1), d);
    EarlyParts(SweptUncounted() + Sends(CAP + 1, 1), [Add(0)], d);
  }

  /** A subscriber that counts its task only after the sweep took it off lets one send too many in. */
  lemma SlowSubscriberOverfills(d: int)
    requires d > 3600
    ensures Runs(Initial(A2A), SlowSubscriber()) && CountedWithin(Initial(A2A), SlowSubscriber(), d)
    ensures var s := Final(Initial(A2A), SlowSubscriber());
            s.counter == 10001 && s.entries == {} && s.sweep.Idle?
  {
    SlowSubscriberRuns();
    SlowSubscriberIsEarly(d);
    InitialInv(A2A);
    hide Inv, Runs, Final, SlowSubscriber, CountedWithin;
    EarlyRuns(Initial(A2A), SlowSubscriber(), d);
  }

  lemma {:induction false} CountedConcat(s: State, a: seq<Step>, b: seq<Step>, d: int)
    requires Runs(s, a) && Runs(Final(s, a), b) && CountedWithin(s, a, d) && CountedWithin(Final(s, a), b, d)
    ensures Runs(s, a + b) && CountedWithin(s, a + b, d)
    decreases |a|
  {
    RunConcat(s, a, b);
    if a == [] {
      assert a + b == b;
    } else {
      CountedConcat(Next(s, a[0]), a[1..], b, d);
      assert (a + b)[1..] == a[1..] + b;
    }
  }

  /** A sweep, two hours later, that has deleted one task. */
  function SweptLate(): seq<Step> {
    [Tick(7200), SweepStart, SweepDelete(7)]
  }

  /** As many sends as the cap allows, and a subscription counted at once. */
  function Filled(): seq<Step> {
    Sends(CAP, 1) + [Subscribe(0, 7, 0)] + [Add(0)]
  }

  lemma FilledRuns()
    ensures Runs(Initial(A2A), Filled()) && Early(Filled(), 0)
    ensures var s := Final(Initial(A2A), Filled());
      && s.counter == CAP + 1 && s.now == 0 && s.entries == {7} && s.births == map[7 := Birth(0, false)]
          && s.sweep.Idle?
      && forall t | t in s.threads :: !s.threads[t].Stored?
  {
    var s, steps := Initial(A2A), Sends(CAP, 1);
    SendsRun(s, CAP, 1);
    SendsAreEarly(CAP, 1);
    EarlyParts(steps, [Subscribe(0, 7, 0)], 0);
    EarlyParts(steps + [Subscribe(0, 7, 0)], [Add(0)], 0);
    hide Sends, Early;
    RunSnoc(s, steps, Subscribe(0, 7, 0));
    RunSnoc(s, steps + [Subscribe(0, 7, 0)], Add(0));
  }

  /** The task a sweep is about to take off has to be counted in: without it the bound is false even if
      every subscriber counts its task at once. */
  lemma SweptTaskStillCounts()
    ensures var steps := Filled() + SweptLate();
      && Runs(Initial(A2A), steps) && CountedWithin(Initial(A2A), steps, 0)
      && Final(Initial(A2A), steps).counter == 10001 && Final(Initial(A2A), steps).entries == {}
  {
    var s := Initial(A2A);
    FilledRuns();
    InitialInv(A2A);
    hide Inv, Filled, SweptLate, Early, CountedWithin;
    EarlyRuns(s, Filled(), 0);
    SweptLateRuns(Final(s, Filled()));
    CountedConcat(s, Filled(), SweptLate(), 0);
    RunConcat(s, Filled(), SweptLate());
  }

  lemma SweptLateRuns(s: State)
    requires s.sweep.Idle? && s.now == 0 && s.entries == {7} && 7 in s.births && s.births[7].created == 0
    requires forall t | t in s.threads :: !s.threads[t].Stored?
    ensures Runs(s, SweptLate()) && CountedWithin(s, SweptLate(), 0)
    ensures Final(s, SweptLate()).counter == s.counter && Final(s, SweptLate()).entries == {}
  {
    var ticked := Next(s, Tick(7200));
    var ranging := Next(ticked, SweepStart);
    var swept := Next(ranging, SweepDelete(7));
    assert Runs(swept, []) && CountedWithin(swept, [], 0);
    assert Runs(ranging, SweptLate()[2..]) && CountedWithin(ranging, SweptLate()[2..], 0);
    assert Final(ranging, SweptLate()[2..]) == swept;
    assert Runs(ticked, SweptLate()[1..]) && CountedWithin(ticked, SweptLate()[1..], 0);
    assert Final(ticked, SweptLate()[1..]) == swept;
  }

  // ---------------------------------------------------------------- exactly when the store adds up

  /** A handler that stores a creator address or a newer snapshot does so at most d seconds after the birth of its
      entry. */
  ghost predicate Prompt(s: State, step: Step, d: int)
    requires Enabled(s, step)
  {
    step.StoreCreator? || step.Restore? ==>
      s.threads[step.t].id in s.births && s.now - s.births[s.threads[step.t].id].created <= d
  }

  ghost predicate StoredWithin(s: State, steps: seq<Step>, d: int)
    requires Runs(s, steps)
    decreases |steps|
  {
    steps != [] ==> Prompt(s, steps[0], d) && StoredWithin(Next(s, steps[0]), steps[1..], d)
  }

  /** A handler is on its way to store the creator address of the entry. */
  ghost predicate Expected(threads: map<ThreadId, Thread>, id: Id) {
    exists t :: t in threads && (threads[t] == Stored(id) || threads[t] == Counted(id))
  }

  ghost predicate SweptAreOld(s: State) {
    && SweepBegan(s)
    && (forall id | id in s.births && id !in s.entries :: s.now - s.births[id].created > MAX_AGE)
    && (s.sweep.Removed? ==> s.sweep.id !in s.entries)
    && s.revivedReserved == 0 && s.revivedOther == 0
  }

  ghost predicate CreatorsMatch(s: State) {
    && (forall id | id in s.creators :: id in s.entries || (s.sweep.Removed? && s.sweep.id == id))
    && (!s.bridge.MCP? ==> forall id | id in s.entries :: id in s.creators || Expected(s.threads, id))
  }

  lemma PromptStepKeepsAges(s: State, step: Step)
    requires Inv(s) && SweptAreOld(s) && Enabled(s, step) && Prompt(s, step, MAX_AGE)
    ensures SweptAreOld(Next(s, step))
  {}

  lemma ExpectedStays(s: State, t: ThreadId, th: Thread)
    requires t in s.threads ==> !s.threads[t].Stored? && !s.threads[t].Counted?
    ensures forall id | Expected(s.threads, id) :: Expected(s.threads[t := th], id)
    ensures forall id | Expected(s.threads, id) :: Expected(s.threads - {t}, id)
  {
    forall id | Expected(s.threads, id)
      ensures Expected(s.threads[t := th], id) && Expected(s.threads - {t}, id)
    {
      var u :| u in s.threads && (s.threads[u] == Stored(id) || s.threads[u] == Counted(id));
      assert u in s.threads[t := th] && s.threads[t := th][u] == s.threads[u];
      assert u in s.threads - {t};
    }
  }

  /** A handler moving on from its entry leaves every other expectation in place. */
  lemma CreatorStillExpected(s: State, t: ThreadId, th: Thread)
    requires t in s.threads && (s.threads[t].Stored? || s.threads[t].Counted?)
    ensures forall id | Expected(s.threads, id) && (id != s.threads[t].id || th == Counted(id)) ::
        Expected(s.threads[t := th], id)
  {
    forall id | Expected(s.threads, id) && (id != s.threads[t].id || th == Counted(id))
      ensures Expected(s.threads[t := th], id)
    {
      var threads := s.threads[t := th];
      if id == s.threads[t].id {
        assert threads[t] == Counted(id);
      } else {
        var u :| u in s.threads && (s.threads[u] == Stored(id) || s.threads[u] == Counted(id));
        assert threads[u] == s.threads[u];
      }
    }
  }

  lemma PromptStepKeepsCreators(s: State, step: Step)
    requires Inv(s) && SweptAreOld(s) && CreatorsMatch(s) && Enabled(s, step) && Prompt(s, step, MAX_AGE)
    ensures CreatorsMatch(Next(s, step))
  {
    var s' := Next(s, step);
    match step
    case Load(t) => ExpectedStays(s, t, Loaded(s.counter));
    case CompareAndSwap(t) => ExpectedStays(s, t, Reserved);
    case StoreReserved(t, id, _) =>
      ExpectedStays(s, t, Counted(id));
      assert s'.threads[t] == Counted(id);
    case Subscribe(t, id, _) =>
      ExpectedStays(s, t, Stored(id));
      assert s'.threads[t] == Stored(id);
    case Check(t) => ExpectedStays(s, t, Checked);
    case StoreChecked(t, id, _) =>
      ExpectedStays(s, t, Stored(id));
      assert s'.threads[t] == Stored(id);
    case Add(t) => CreatorStillExpected(s, t, Counted(s.threads[t].id));
    case StoreCreator(t) => CreatorStillExpected(s, t, Working(s.threads[t].id));
    case LoadForCancel(t, id) => ExpectedStays(s, t, Working(id));
    case Finish(t) =>
      if !s.bridge.MCP? { ExpectedStays(s, t, Reserved); }
    case _ =>
  }

  lemma LongerIsLater(s: State, step: Step, d: int)
    requires Enabled(s, step) && Prompt(s, step, d) && d <= MAX_AGE
    ensures Prompt(s, step, MAX_AGE)
  {}

  lemma {:induction false} PromptRunKeeps(s: State, steps: seq<Step>, d: int)
    requires Inv(s) && SweptAreOld(s) && CreatorsMatch(s) && Runs(s, steps) && StoredWithin(s, steps, d) && d <= MAX_AGE
    ensures Inv(Final(s, steps)) && SweptAreOld(Final(s, steps)) && CreatorsMatch(Final(s, steps))
    decreases |steps|
  {
    if steps != [] {
      LongerIsLater(s, steps[0], d);
      hide Inv, SweptAreOld, CreatorsMatch, Next, Enabled, Prompt;
      StepKeeps(s, steps[0]);
      PromptStepKeepsAges(s, steps[0]);
      PromptStepKeepsCreators(s, steps[0]);
      PromptRunKeeps(Next(s, steps[0]), steps[1..], d);
    }
  }

  /** The counter is the number of entries, and exactly the live entries have a creator address. */
  predicate AddsUp(s: State) {
    s.counter == |s.entries| && s.creators == s.entries
  }

  /** It does at quiescence of every run whose handlers store within d seconds. */
  ghost predicate QuiescentStoreAddsUp(bridge: Bridge, d: int) {
    forall steps: seq<Step> | Runs(Initial(bridge), steps) && StoredWithin(Initial(bridge), steps, d) ::
      Quiescent(Final(Initial(bridge), steps)) ==> AddsUp(Final(Initial(bridge), steps))
  }

  lemma NothingExpected(s: State)
    requires !s.bridge.MCP? && CreatorsMatch(s) && Quiescent(s)
    ensures s.creators == s.entries
  {
    forall id ensures !Expected(s.threads, id) {}
  }

  lemma QuiescentStore(bridge: Bridge, steps: seq<Step>, d: int)
    requires Runs(Initial(bridge), steps) && StoredWithin(Initial(bridge), steps, d) && d <= MAX_AGE
    ensures var s := Final(Initial(bridge), steps);
            Quiescent(s) ==> s.counter == |s.entries| && (!bridge.MCP? ==> s.creators == s.entries)
  {
    InitialInv(bridge);
    BridgeStays(Initial(bridge), steps);
    assert SweptAreOld(Initial(bridge)) && CreatorsMatch(Initial(bridge));
    hide Inv, Runs, StoredWithin, CreatorsMatch;
    PromptRunKeeps(Initial(bridge), steps, d);
    if Quiescent(Final(Initial(bridge), steps)) {
      CounterIsExactIff(bridge, steps);
      if !bridge.MCP? {
        NothingExpected(Final(Initial(bridge), steps));
      }
    }
  }

  /** On A2A and ACP the store adds up in all these runs exactly when handlers stop storing before the
      sweep may take their entries. */
  lemma QuiescentStoreIff(bridge: Bridge, d: int)
    requires !bridge.MCP?
    ensures QuiescentStoreAddsUp(bridge, d) <==> d <= 3600
  {
    if d <= MAX_AGE {
      forall steps: seq<Step> | Runs(Initial(bridge), steps) && StoredWithin(Initial(bridge), steps, d)
        ensures Quiescent(Final(Initial(bridge), steps)) ==> AddsUp(Final(Initial(bridge), steps))
      {
        QuiescentStore(bridge, steps, d);
      }
    } else {
      LateStoreMiscounts(bridge, d);
    }
  }

  lemma {:induction false} NothingRevived(s: State, steps: seq<Step>)
    requires s.bridge.MCP? && Runs(s, steps)
    ensures Final(s, steps).revivedReserved == s.revivedReserved && Final(s, steps).revivedOther == s.revivedOther
    decreases |steps|
  {
    if steps != [] {
      NothingRevived(Next(s, steps[0]), steps[1..]);
    }
  }

  /** MCP sessions are stored once: there the counter is exact at quiescence of every run. */
  lemma SessionCounterIsExact(steps: seq<Step>)
    requires Runs(Initial(MCP), steps)
    ensures var s := Final(Initial(MCP), steps);
            Quiescent(s) ==> s.counter == |s.entries|
  {
    NothingRevived(Initial(MCP), steps);
    if Quiescent(Final(Initial(MCP), steps)) {
      CounterIsExactIff(MCP, steps);
    }
  }

  // ---------------------------------------------------------------- runs with late stores

  function Begun(bridge: Bridge): seq<Step> {
    if bridge.A2A? then SentOnce() else CheckedOnce()
  }

  /** A handler of each kind that runs until its entry is counted. */
  function SentOnce(): seq<Step> {
    [] + [Load(0)] + [CompareAndSwap(0)] + [StoreReserved(0, 7, 0)]
  }

  function CheckedOnce(): seq<Step> {
    [] + [Check(0)] + [StoreChecked(0, 7, 0)] + [Add(0)]
  }

  function Later(): seq<Step> {
    [] + [Tick(MAX_AGE + 1)] + [SweepStart] + [SweepDelete(7)] + [SweepForget] + [SweepAdd] + [SweepEnd]
  }

  function Counting(bridge: Bridge, now: int, entries: set<Id>, counter: int, creators: set<Id>,
                    threads: map<ThreadId, Thread>): State {
    State(bridge, now, entries, counter, creators, threads, Idle, map[7 := Birth(0, bridge.A2A?)],
          if bridge.A2A? then counter else 0, 0, 0, 0, if bridge.A2A? then 0 else 1)
  }

  lemma SentOnceRuns()
    ensures Runs(Initial(A2A), SentOnce())
    ensures Final(Initial(A2A), SentOnce()) == Counting(A2A, 0, {7}, 1, {}, map[0 := Counted(7)])
  {
    var s := Initial(A2A);
    RunSnoc(s, [], Load(0));
    RunSnoc(s, [] + [Load(0)], CompareAndSwap(0));
    RunSnoc(s, [] + [Load(0)] + [CompareAndSwap(0)], StoreReserved(0, 7, 0));
  }

  lemma CheckedOnceRuns(bridge: Bridge)
    requires !bridge.A2A?
    ensures Runs(Initial(bridge), CheckedOnce())
    ensures Final(Initial(bridge), CheckedOnce()) == Counting(bridge, 0, {7}, 1, {}, map[0 := Counted(7)])
  {
    var s := Initial(bridge);
    var threads: map<ThreadId, Thread> := map[0 := Checked];
    assert At(threads, BeforeStore) == {0} && At(threads, BeforeAdd) == {};
    RunSnoc(s, [], Check(0));
    RunSnoc(s, [] + [Check(0)], StoreChecked(0, 7, 0));
    RunSnoc(s, [] + [Check(0)] + [StoreChecked(0, 7, 0)], Add(0));
  }

  lemma BegunRuns(bridge: Bridge)
    ensures Runs(Initial(bridge), Begun(bridge)) && Early(Begun(bridge), 0)
    ensures Final(Initial(bridge), Begun(bridge)) == Counting(bridge, 0, {7}, 1, {}, map[0 := Counted(7)])
  {
    if bridge.A2A? {
      SentOnceRuns();
    } else {
      CheckedOnceRuns(bridge);
    }
  }

  /** A sweep after the age limit takes the entry off. */
  lemma LaterRuns(bridge: Bridge, creators: set<Id>, threads: map<ThreadId, Thread>)
    requires forall t | t in threads :: threads[t] != Stored(7)
    ensures var s := Counting(bridge, 0, {7}, 1, creators, threads);
      && Runs(s, Later())
      && Final(s, Later()) == Counting(bridge, MAX_AGE + 1, {}, 0, creators - {7}, threads)
  {
    var s := Counting(bridge, 0, {7}, 1, creators, threads);
    var steps := [] + [Tick(MAX_AGE + 1)] + [SweepStart] + [SweepDelete(7)];
    var deleted := Counting(bridge, MAX_AGE + 1, {}, 1, creators, threads).(sweep := Removed(MAX_AGE + 1, 7));
    RunSnoc(s, [], Tick(MAX_AGE + 1));
    RunSnoc(s, [] + [Tick(MAX_AGE + 1)], SweepStart);
    RunSnoc(s, [] + [Tick(MAX_AGE + 1)] + [SweepStart], SweepDelete(7));
    assert Final(s, steps) == deleted;
    RestOfSweep(bridge, creators, threads);
    hide Counting, Next, Enabled, Runs, Final;
    RunConcat(s, steps, [SweepForget, SweepAdd, SweepEnd]);
    assert steps + [SweepForget, SweepAdd, SweepEnd] == Later();
  }

  lemma RestOfSweep(bridge: Bridge, creators: set<Id>, threads: map<ThreadId, Thread>)
    ensures var s := Counting(bridge, MAX_AGE + 1, {}, 1, creators, threads).(sweep := Removed(MAX_AGE + 1, 7));
            var rest := [SweepForget, SweepAdd, SweepEnd];
            Runs(s, rest) && Final(s, rest) == Counting(bridge, MAX_AGE + 1, {}, 0, creators - {7}, threads)
  {
    var s := Counting(bridge, MAX_AGE + 1, {}, 1, creators, threads).(sweep := Removed(MAX_AGE + 1, 7));
    var forgotten := Next(s, SweepForget);
    var taken := Next(forgotten, SweepAdd);
    var ended := Next(taken, SweepEnd);
    assert ended == Counting(bridge, MAX_AGE + 1, {}, 0, creators - {7}, threads);
    assert Runs(ended, []) && Runs(taken, [SweepEnd]) && Final(taken, [SweepEnd]) == ended;
    assert Runs(forgotten, [SweepAdd, SweepEnd]) && Final(forgotten, [SweepAdd, SweepEnd]) == ended;
  }

  /** A sweep is at work, and has been since. */
  ghost predicate SweepingSince(s: State, began: int) {
    (s.sweep.Ranging? || s.sweep.Removed? || s.sweep.Forgotten?) && s.sweep.began == began
  }

  lemma {:induction false} YoungStays(s: State, steps: seq<Step>, began: int, id: Id)
    requires Runs(s, steps) && forall step | step in steps :: !step.SweepEnd?
    requires SweepingSince(s, began) && id in s.entries && id in s.births && began - s.births[id].created <= 3600
    ensures id in Final(s, steps).entries
    decreases |steps|
  {
    if steps != [] {
      assert steps[0] in steps;
      YoungStays(Next(s, steps[0]), steps[1..], began, id);
    }
  }

  /** A sweep goes by the time at which it began: an entry of at most an hour's age then outlives it, however long it
      takes. */
  lemma YoungEntryOutlivesSweep(bridge: Bridge, before: seq<Step>, during: seq<Step>, id: Id)
    requires Runs(Initial(bridge), before) && Enabled(Final(Initial(bridge), before), SweepStart)
    requires Runs(Next(Final(Initial(bridge), before), SweepStart), during)
    requires forall step | step in during :: !step.SweepEnd?
    ensures var s := Final(Initial(bridge), before);
            id in s.entries && id in s.births && s.now - s.births[id].created <= 3600 ==>
              id in Final(Next(s, SweepStart), during).entries
  {
    var s := Final(Initial(bridge), before);
    if id in s.entries && id in s.births && s.now - s.births[id].created <= 3600 {
      YoungStays(Next(s, SweepStart), during, s.now, id);
    }
  }

  /** The handler stores its creator address, and once more after the sweep. */
  function LateStore(bridge: Bridge): seq<Step> {
    Begun(bridge) + [StoreCreator(0)] + Later() + [Restore(0)]
  }

  lemma CreatorStored(bridge: Bridge)
    requires !bridge.MCP?
    ensures var s := Counting(bridge, 0, {7}, 1, {}, map[0 := Counted(7)]);
            Enabled(s, StoreCreator(0))
            && Next(s, StoreCreator(0)) == Counting(bridge, 0, {7}, 1, {7}, map[0 := Working(7)])
  {}

  lemma SweptRestored(bridge: Bridge)
    requires !bridge.MCP?
    ensures var s := Counting(bridge, MAX_AGE + 1, {}, 0, {}, map[0 := Working(7)]);
      && Enabled(s, Restore(0)) && Quiescent(Next(s, Restore(0)))
      && Next(s, Restore(0)).counter == 0 && Next(s, Restore(0)).entries == {7} && Next(s, Restore(0)).creators == {}
  {}

  lemma LateStoreRuns(bridge: Bridge)
    requires !bridge.MCP?
    ensures Runs(Initial(bridge), LateStore(bridge))
    ensures var s := Final(Initial(bridge), LateStore(bridge));
            Quiescent(s) && s.counter == 0 && s.entries == {7} && s.creators == {}
  {
    hide Begun, Later, Early, Next, Enabled, Runs, Final, Initial, Counting, Quiescent;
    var s, before := Initial(bridge), Begun(bridge) + [StoreCreator(0)];
    BegunRuns(bridge);
    CreatorStored(bridge);
    RunSnoc(s, Begun(bridge), StoreCreator(0));
    LaterRuns(bridge, {7}, map[0 := Working(7)]);
    RunConcat(s, before, Later());
    assert {7} - {7} == {};
    SweptRestored(bridge);
    RunSnoc(s, before + Later(), Restore(0));
  }

  lemma LateStoreMiscounts(bridge: Bridge, d: int)
    requires !bridge.MCP? && d > 3600
    ensures Runs(Initial(bridge), LateStore(bridge)) && StoredWithin(Initial(bridge), LateStore(bridge), d)
    ensures var s := Final(Initial(bridge), LateStore(bridge));
            Quiescent(s) && s.counter == 0 && s.entries == {7} && s.creators == {}
  {
    hide Inv, LateStore, Early, StoredWithin, CountedWithin, Runs, Final, Next;
    LateStoreRuns(bridge);
    LateStoreIsEarly(bridge, d);
    InitialInv(bridge);
    EarlyRuns(Initial(bridge), LateStore(bridge), d);
  }

  lemma LateStoreIsEarly(bridge: Bridge, d: int)
    requires d > 3600
    ensures Early(LateStore(bridge), d)
  {
    assert Early(Begun(bridge), 0) && Early(Later(), d);
  }

  /** The handler stores its creator address only after the sweep. */
  function LateCreator(bridge: Bridge): seq<Step> {
    Begun(bridge) + Later() + [StoreCreator(0)] + [Finish(0)]
  }

  /** The id has a creator address, no entry, and no handler or sweep that could change either. */
  ghost predicate Leaked(s: State, id: Id) {
    && id in s.creators && id in s.births && id !in s.entries
    && (forall t | t in s.threads && (s.threads[t].Stored? || s.threads[t].Counted? || s.threads[t].Working?) ::
        s.threads[t].id != id)
    && (s.sweep.Removed? ==> s.sweep.id != id)
  }

  lemma {:induction false} LeakedStays(s: State, steps: seq<Step>, id: Id)
    requires Leaked(s, id) && Runs(s, steps)
    ensures Leaked(Final(s, steps), id)
    decreases |steps|
  {
    if steps != [] {
      LeakedStays(Next(s, steps[0]), steps[1..], id);
    }
  }

  /** A creator address stored after the sweep is never removed again. */
  lemma LateCreatorStays(bridge: Bridge, later: seq<Step>)
    requires !bridge.MCP?
    ensures Runs(Initial(bridge), LateCreator(bridge))
    ensures Runs(Final(Initial(bridge), LateCreator(bridge)), later) ==>
              var s := Final(Final(Initial(bridge), LateCreator(bridge)), later);
              7 in s.creators && 7 !in s.entries
  {
    var s := Initial(bridge);
    BegunRuns(bridge);
    LaterRuns(bridge, {}, map[0 := Counted(7)]);
    RunConcat(s, Begun(bridge), Later());
    RunSnoc(s, Begun(bridge) + Later(), StoreCreator(0));
    RunSnoc(s, Begun(bridge) + Later() + [StoreCreator(0)], Finish(0));
    if Runs(Final(s, LateCreator(bridge)), later) {
      LeakedStays(Final(s, LateCreator(bridge)), later, 7);
    }
  }

  /** The handler is done; a cancel loads its entry before the sweep and stores after it. */
  function LateCancel(bridge: Bridge): seq<Step> {
    Begun(bridge) + [StoreCreator(0)] + [Finish(0)] + [LoadForCancel(1, 7)] + Later() + [Restore(1)]
  }

  lemma CancelLoads(bridge: Bridge)
    requires !bridge.MCP?
    ensures var s := Counting(bridge, 0, {7}, 1, {7}, map[0 := Working(7)]);
      && Enabled(s, Finish(0)) && Enabled(Next(s, Finish(0)), LoadForCancel(1, 7))
      && Next(Next(s, Finish(0)), LoadForCancel(1, 7)) == Counting(bridge, 0, {7}, 1, {7}, map[1 := Working(7)])
  {
    var threads: map<ThreadId, Thread> := map[0 := Working(7)];
    assert threads - {0} == map[];
  }

  lemma CancelRestores(bridge: Bridge)
    requires !bridge.MCP?
    ensures var s := Counting(bridge, MAX_AGE + 1, {}, 0, {}, map[1 := Working(7)]);
      && Enabled(s, Restore(1)) && Quiescent(Next(s, Restore(1)))
      && Next(s, Restore(1)).counter == 0 && Next(s, Restore(1)).entries == {7}
  {}

  /** A cancel too can bring a swept entry back, uncounted. */
  lemma LateCancelMiscounts(bridge: Bridge)
    requires !bridge.MCP?
    ensures Runs(Initial(bridge), LateCancel(bridge))
    ensures var s := Final(Initial(bridge), LateCancel(bridge));
            Quiescent(s) && s.counter == 0 && s.entries == {7}
  {
    hide Begun, Later, Early, Next, Enabled, Runs, Final, Initial, Counting, Quiescent;
    var s, stored := Initial(bridge), Begun(bridge) + [StoreCreator(0)];
    BegunRuns(bridge);
    CreatorStored(bridge);
    RunSnoc(s, Begun(bridge), StoreCreator(0));
    CancelLoads(bridge);
    RunSnoc(s, stored, Finish(0));
    RunSnoc(s, stored + [Finish(0)], LoadForCancel(1, 7));
    LaterRuns(bridge, {7}, map[1 := Working(7)]);
    RunConcat(s, stored + [Finish(0)] + [LoadForCancel(1, 7)], Later());
    assert {7} - {7} == {};
    CancelRestores(bridge);
    RunSnoc(s, stored + [Finish(0)] + [LoadForCancel(1, 7)] + Later(), Restore(1));
  }

  // ---------------------------------------------------------------- the bounds are reached

  /** n handlers of ACP or MCP, one after the other, each up to its place on the counter. */
  function Rounds(n: nat): seq<Step> {
    if n == 0 then [] else Rounds(n - 1) + [Check(n - 1)] + [StoreChecked(n - 1, n - 1, 0)] + [Add(n - 1)]
  }

  /** Every handler so far has stored its own entry and counted it, or only checked. */
  ghost predicate Rounded(s: State, n: nat, checked: nat) {
    && !s.bridge.A2A? && s.now == 0 && s.counter == n && |s.entries| == n && s.sweep.Idle?
    && (forall id | id in s.births :: id < n) && s.entries <= s.births.Keys
    && (forall t | t in s.threads ::
          t < n + checked && (if t < n then s.threads[t].Counted? else s.threads[t].Checked?))
    && (forall t | n <= t < n + checked :: t in s.threads)
    && |At(s.threads, BeforeStore)| == checked && At(s.threads, BeforeAdd) == {}
  }

  lemma OneMoreCheck(s: State, n: nat, checked: nat)
    requires Rounded(s, n, checked) && n < CAP
    ensures Enabled(s, Check(n + checked)) && Rounded(Next(s, Check(n + checked)), n, checked + 1)
    ensures Next(s, Check(n + checked)).peak == if checked + 1 > s.peak then checked + 1 else s.peak
  {
    var t := n + checked;
    Enters(s.threads, t, Checked, BeforeStore);
    Enters(s.threads, t, Checked, BeforeAdd);
  }

  /** The handler that checked first stores and counts. */
  lemma CheckedOnceMore(s: State, n: nat, checked: nat)
    requires Rounded(s, n, checked) && checked > 0
    ensures Enabled(s, StoreChecked(n, n, 0)) && Enabled(Next(s, StoreChecked(n, n, 0)), Add(n))
    ensures var s' := Next(Next(s, StoreChecked(n, n, 0)), Add(n));
            Rounded(s', n + 1, checked - 1) && s'.peak == s.peak
  {
    var stored := s.threads[n := Stored(n)];
    var counted := stored[n := Counted(n)];
    assert n in s.threads && s.threads[n] == Checked;
    Moves(s.threads, n, Stored(n), BeforeStore);
    Moves(stored, n, Counted(n), BeforeStore);
    assert At(counted, BeforeAdd) == {};
    assert n !in s.entries;
  }

  lemma NoRounds(bridge: Bridge)
    requires !bridge.A2A?
    ensures Rounded(Initial(bridge), 0, 0)
  {
    assert At(map[], BeforeStore) == {} && At(map[], BeforeAdd) == {};
  }

  lemma {:induction false} RoundsRun(bridge: Bridge, n: nat)
    requires !bridge.A2A? && n <= CAP
    ensures Runs(Initial(bridge), Rounds(n)) && Rounded(Final(Initial(bridge), Rounds(n)), n, 0)
    ensures Final(Initial(bridge), Rounds(n)).peak == if n == 0 then 0 else 1
  {
    hide Next, Enabled, Rounded;
    if n == 0 {
      NoRounds(bridge);
    } else {
      RoundsRun(bridge, n - 1);
      var s, before := Initial(bridge), Rounds(n - 1);
      OneMoreCheck(Final(s, before), n - 1, 0);
      hide Final, Runs, Initial;
      RunSnoc(s, before, Check(n - 1));
      CheckedOnceMore(Final(s, before + [Check(n - 1)]), n - 1, 1);
      RunSnoc(s, before + [Check(n - 1)], StoreChecked(n - 1, n - 1, 0));
      RunSnoc(s, before + [Check(n - 1)] + [StoreChecked(n - 1, n - 1, 0)], Add(n - 1));
    }
  }

  /** p handlers check before any of them stores. */
  function Checks(n: nat, p: nat): seq<Step> {
    if p == 0 then [] else Checks(n, p - 1) + [Check(n + p - 1)]
  }

  lemma {:induction false} ChecksRun(s: State, n: nat, p: nat)
    requires Rounded(s, n, 0) && n < CAP && s.peak <= 1
    ensures Runs(s, Checks(n, p)) && Rounded(Final(s, Checks(n, p)), n, p)
    ensures Final(s, Checks(n, p)).peak == if p > s.peak then p else s.peak
  {
    if p > 0 {
      ChecksRun(s, n, p - 1);
      OneMoreCheck(Final(s, Checks(n, p - 1)), n, p - 1);
      hide Next, Enabled, Rounded;
      RunSnoc(s, Checks(n, p - 1), Check(n + p - 1));
    }
  }

  /** Then each of them stores and counts. */
  function Adds(n: nat, p: nat): seq<Step>
    decreases p
  {
    if p == 0 then [] else [StoreChecked(n, n, 0)] + ([Add(n)] + Adds(n + 1, p - 1))
  }

  lemma {:induction false} AddsRun(s: State, n: nat, p: nat)
    requires Rounded(s, n, p)
    ensures Runs(s, Adds(n, p)) && Rounded(Final(s, Adds(n, p)), n + p, 0)
    ensures Final(s, Adds(n, p)).peak == s.peak
    decreases p
  {
    if p > 0 {
      CheckedOnceMore(s, n, p);
      var stored := Next(s, StoreChecked(n, n, 0));
      AddsRun(Next(stored, Add(n)), n + 1, p - 1);
      var rest := [Add(n)] + Adds(n + 1, p - 1);
      assert rest[1..] == Adds(n + 1, p - 1) && Adds(n, p)[1..] == rest;
      assert Runs(stored, rest) && Final(stored, rest) == Final(Next(stored, Add(n)), Adds(n + 1, p - 1));
    }
  }

  /** Every number of entries up to the cap is admitted, on every bridge. */
  lemma AdmittedUpToTheCap(bridge: Bridge, n: nat)
    requires n <= 10000
    ensures exists steps :: Runs(Initial(bridge), steps) && Final(Initial(bridge), steps).counter == n
  {
    if bridge.A2A? {
      SendsRun(Initial(A2A), n, 0);
      assert Runs(Initial(A2A), Sends(n, 0));
    } else {
      RoundsRun(bridge, n);
      assert Runs(Initial(bridge), Rounds(n));
    }
  }

  /** A race of p handlers: 9999 entries, then p checks, then p stores and adds. */
  function Race(p: nat): seq<Step> {
    Rounds(9999) + Checks(9999, p) + Adds(9999, p)
  }

  /** Checking first and adding later does overshoot: for every p there is a run in which at most p handlers were
      ever between check and add, and in which the store ends with 9999 + p entries, all counted. */
  lemma CheckThenAddBoundIsReached(bridge: Bridge, p: nat)
    requires !bridge.A2A? && p >= 1
    ensures Runs(Initial(bridge), Race(p))
    ensures var s := Final(Initial(bridge), Race(p));
            s.peak == p && s.counter == 9999 + p && |s.entries| == 9999 + p
  {
    var s := Initial(bridge);
    RoundsRun(bridge, 9999);
    ChecksRun(Final(s, Rounds(9999)), 9999, p);
    AddsRun(Final(Final(s, Rounds(9999)), Checks(9999, p)), 9999, p);
    hide Rounds, Checks, Adds;
    RunConcat(s, Rounds(9999), Checks(9999, p));
    RunConcat(s, Rounds(9999) + Checks(9999, p), Adds(9999, p));
  }
}
