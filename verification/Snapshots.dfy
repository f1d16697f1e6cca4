/** Published task and run snapshots are never written again.

    The A2A and ACP handlers work on one heap of records and slices. They interleave at every single
    operation. Nothing in the machine stops a program from writing to a record it has published;
    that the handlers never do is proved of their programs. */
module Snapshots {
  import opened Streams

  type Address = nat
  type ThreadId = nat
  type Id = string

  /** A task or run, or the backing array of its artifacts or output. A nil slice is an empty one. */
  datatype Cell =
    | Record(id: Id, status: string, message: string, updatedAt: int, slice: Address)
    | Slice(texts: seq<string>)

  /** The operations handlers are made of. `current` is a handler's variable task or run, `copy` its
      variable cp. Writes go through copy. */
  datatype Op =
    | Create(id: Id, status: string)      // copy := a new record with an empty slice
    | Clone                               // copy := a new record like current with a slice of its own
    | Alias                               // copy := current
    | SetStatus(status: string, message: string, keeps: bool, at: int)  // the message too, or an old one is kept
    | SetUpdatedAt(at: int)
    | SetSlice(text: string)              // to a new one-element slice
    | AppendSlice(text: string)           // to a new slice, the old one having no room
    | Take                                // current := copy
    | Publish                             // store copy under its id
    | LoadPublished(id: Id)               // current := the stored record, or give up

  /** What a reader of a stored task or run sees of it, times aside. */
  datatype Snapshot = Snapshot(id: Id, status: string, message: string, texts: seq<string>)

  /** What copy refers to: nothing yet, a stored record, an own record to write, or an own record that
      is the current one too. */
  datatype Hold = Nothing | Stored | Own | Taken

  /** Address 0 is nil. `hold` and `stored`, the snapshots this handler has stored so far, are
      bookkeeping the machine never tests. */
  datatype Thread = Thread(ops: seq<Op>, current: Address, copy: Address, hold: Hold, stored: seq<Snapshot>)

  /** `published` collects every record ever stored, with its slice. */
  datatype State = State(
    heap: map<Address, Cell>,
    next: Address,
    store: map<Id, Address>,
    threads: map<ThreadId, Thread>,
    published: set<Address>)

  function Initial(): State {
    State(map[], 1, map[], map[], {})
  }

  // ---------------------------------------------------------------- the machine

  predicate IsRecord(heap: map<Address, Cell>, a: Address) {
    && a in heap && heap[a].Record?
    && heap[a].slice in heap && heap[heap[a].slice].Slice?
  }

  function NoSnapshot(): Snapshot {
    Snapshot("", "", "", [])
  }

  function View(heap: map<Address, Cell>, a: Address): Snapshot {
    if IsRecord(heap, a) then Snapshot(heap[a].id, heap[a].status, heap[a].message, heap[heap[a].slice].texts)
    else NoSnapshot()
  }

  /** What copy refers to after the operation. */
  function HoldNext(op: Op, hold: Hold): Hold {
    match op
    case Create(_, _) => Own
    case Clone => Own
    case Alias => Stored
    case Take => if hold.Own? then Taken else hold
    case Publish => Stored
    case _ => hold
  }

  /** Whether the operation finds what it needs. A handler that does not stops: it would follow a bad pointer,
      or it is a cancel that finds nothing. */
  predicate CanGo(s: State, th: Thread)
    requires th.ops != []
  {
    match th.ops[0]
    case Clone => IsRecord(s.heap, th.current)
    case SetStatus(_, _, _, _) => IsRecord(s.heap, th.copy)
    case SetUpdatedAt(_) => IsRecord(s.heap, th.copy)
    case SetSlice(_) => IsRecord(s.heap, th.copy)
    case AppendSlice(_) => IsRecord(s.heap, th.copy)
    case Publish => IsRecord(s.heap, th.copy)
    case LoadPublished(id) => id in s.store
    case _ => true
  }

  function Registers(s: State, th: Thread): Thread
    requires th.ops != [] && CanGo(s, th)
  {
    var op := th.ops[0];
    Thread(
      th.ops[1..],
      if op.Take? then th.copy else if op.LoadPublished? then s.store[op.id] else th.current,
      if op.Create? || op.Clone? then s.next + 1 else if op.Alias? then th.current else th.copy,
      HoldNext(op, th.hold),
      if op.Publish? then th.stored + [View(s.heap, th.copy)] else th.stored)
  }

  /** A task's message is replaced with its status; a run's error is kept unless there is a new one. */
  function MessageNow(old': string, message: string, keeps: bool): string {
    if keeps && message == "" then old' else message
  }

  /** New cells go to the addresses s.next and s.next + 1. */
  function Memory(s: State, th: Thread): map<Address, Cell>
    requires th.ops != [] && CanGo(s, th)
  {
    match th.ops[0]
    case Create(id, status) => s.heap[s.next := Slice([])][s.next + 1 := Record(id, status, "", 0, s.next)]
    case Clone => s.heap[s.next := s.heap[s.heap[th.current].slice]][s.next + 1 := s.heap[th.current].(slice := s.next)]
    case SetStatus(status, message, keeps, at) =>
      var record := s.heap[th.copy];
      var now := MessageNow(record.message, message, keeps);
      s.heap[th.copy := record.(status := status, message := now, updatedAt := at)]
    case SetUpdatedAt(at) => s.heap[th.copy := s.heap[th.copy].(updatedAt := at)]
    case SetSlice(text) => s.heap[s.next := Slice([text])][th.copy := s.heap[th.copy].(slice := s.next)]
    case AppendSlice(text) =>
      var texts := s.heap[s.heap[th.copy].slice].texts + [text];
      s.heap[s.next := Slice(texts)][th.copy := s.heap[th.copy].(slice := s.next)]
    case _ => s.heap
  }

  /** One operation of handler t. */
  function Execute(s: State, t: ThreadId): State
    requires t in s.threads && s.threads[t].ops != []
  {
    var th := s.threads[t];
    if !CanGo(s, th) then s.(threads := s.threads[t := th.(ops := [])])
    else if th.ops[0].Publish? then
      s.(store := s.store[s.heap[th.copy].id := th.copy],
         published := s.published + {th.copy, s.heap[th.copy].slice},
         threads := s.threads[t := Registers(s, th)])
    else s.(heap := Memory(s, th), next := s.next + 2, threads := s.threads[t := Registers(s, th)])
  }

  // ---------------------------------------------------------------- the handlers

  /** How a request meets the bridge: none configured, a stream that cannot be opened, or a stream. */
  datatype Reply = NoBridge | CannotSend(error: string) | Streamed(chunks: seq<Chunk>)

  datatype Handler =
    | A2ASend(id: Id, reply: Reply)
    | A2ASubscribe(id: Id, reply: Reply)
    | A2ACancel(id: Id)
    | ACPSync(id: Id, reply: Reply)
    | ACPStream(id: Id, reply: Reply)
    | ACPAsync(id: Id, reply: Reply)
    | ACPCancel(id: Id)

  function StoreNew(id: Id, status: string): seq<Op> {
    [Create(id, status), Take, Publish]
  }

  /** updateTaskState: clone, write the clone, store it, return it. */
  function UpdateTask(status: string, message: string, at: int): seq<Op> {
    [Clone, SetStatus(status, message, false, at), Publish, Take]
  }

  /** updateACPRunState: clone, write the clone, return it. Storing is the caller's. */
  function UpdateRun(status: string, message: string, at: int): seq<Op> {
    [Clone, SetStatus(status, message, true, at), Take]
  }

  /** The snapshots a streaming loop stores for its partial texts. */
  function StorePartials(texts: seq<string>, at: int): seq<Op> {
    if texts == [] then []
    else [Clone, SetSlice(texts[0]), SetUpdatedAt(at), Publish, Take] + StorePartials(texts[1..], at)
  }

  predicate IsTask(h: Handler) {
    h.A2ASend? || h.A2ASubscribe? || h.A2ACancel?
  }

  predicate Creates(h: Handler) {
    !h.A2ACancel? && !h.ACPCancel?
  }

  predicate Succeeds(reply: Reply) {
    reply.Streamed? && Collect(reply.chunks).failure == ""
  }

  /** Why a reply fails; nothing for one that succeeds. */
  function FailureOf(reply: Reply): string {
    match reply
    case NoBridge => "bridge not available"
    case CannotSend(error) => error
    case Streamed(chunks) => Collect(chunks).failure
  }

  /** The partial texts a handler stores: the two streaming ones store one for every chunk with data. */
  function Progress(h: Handler): seq<string>
    requires Creates(h)
  {
    if (h.A2ASubscribe? || h.ACPStream?) && h.reply.Streamed? then Partials("", h.reply.chunks) else []
  }

  function SetText(h: Handler, text: string): seq<Op> {
    if h.A2ASend? then [Clone, AppendSlice(text), Take] else [Clone, SetSlice(text), Take]
  }

  function Update(h: Handler, status: string, message: string, at: int): seq<Op> {
    if IsTask(h) then UpdateTask(status, message, at) else UpdateRun(status, message, at) + [Publish]
  }

  /** How a task or run ends: with the collected body, or failed. */
  function Finish(h: Handler, at: int): seq<Op>
    requires Creates(h)
  {
    if Succeeds(h.reply) then SetText(h, Collect(h.reply.chunks).body) + Update(h, "completed", "", at)
    else Update(h, "failed", FailureOf(h.reply), at)
  }

  /** A2A send and ACP sync look for the bridge before they call the task or run begun, the others after. */
  predicate FailsEarly(h: Handler)
    requires Creates(h)
  {
    (h.A2ASend? || h.ACPSync?) && h.reply.NoBridge?
  }

  function Program(h: Handler, at: int): seq<Op> {
    match h
    case A2ACancel(id) => [LoadPublished(id)] + Update(h, "canceled", "", at)
    case ACPCancel(id) => [LoadPublished(id)] + Update(h, "cancelled", "", at)
    case _ =>
      var working := if IsTask(h) then "working" else "in-progress";
      StoreNew(h.id, if IsTask(h) then "accepted" else "created")
      + if FailsEarly(h) then Finish(h, at)
        else Update(h, working, "", at) + (StorePartials(Progress(h), at) + Finish(h, at))
  }

  // ---------------------------------------------------------------- the discipline of a program

  predicate Writes(op: Op) {
    op.SetStatus? || op.SetUpdatedAt? || op.SetSlice? || op.AppendSlice?
  }

  /** Whether current refers to a record after the operation. */
  predicate HasNext(op: Op, has: bool) {
    has || op.Take? || op.LoadPublished?
  }

  predicate Permitted(op: Op, hold: Hold, has: bool) {
    && (Writes(op) ==> hold.Own?)
    && (op.Publish? ==> hold.Own? || hold.Taken?)
    && (op.Clone? || op.Alias? ==> has)
    && (op.Take? ==> !hold.Nothing?)
  }

  /** Every write goes through a copy this program made and has since neither stored nor handed on;
      every store is of such a copy or of the one just handed on; nothing is read before it is there. */
  predicate Careful(ops: seq<Op>, hold: Hold, has: bool) {
    ops == [] || (Permitted(ops[0], hold, has) && Careful(ops[1..], HoldNext(ops[0], hold), HasNext(ops[0], has)))
  }

  function HoldAfter(ops: seq<Op>, hold: Hold): Hold {
    if ops == [] then hold else HoldAfter(ops[1..], HoldNext(ops[0], hold))
  }

  lemma {:induction false} CarefulConcat(a: seq<Op>, b: seq<Op>, hold: Hold)
    requires Careful(a, hold, true) && Careful(b, HoldAfter(a, hold), true)
    ensures Careful(a + b, hold, true)
    decreases |a|
  {
    if a == [] {
      assert a + b == b;
    } else {
      assert (a + b)[1..] == a[1..] + b;
      CarefulConcat(a[1..], b, HoldNext(a[0], hold));
    }
  }

  /** A part that fits into any program that has a current record. */
  ghost predicate AlwaysCareful(ops: seq<Op>) {
    forall hold: Hold :: Careful(ops, hold, true)
  }

  lemma Then(a: seq<Op>, b: seq<Op>)
    requires AlwaysCareful(a) && AlwaysCareful(b)
    ensures AlwaysCareful(a + b)
  {
    forall hold: Hold ensures Careful(a + b, hold, true) {
      CarefulConcat(a, b, hold);
    }
  }

  lemma BlocksAreCareful(id: Id, text: string, status: string, message: string, at: int)
    ensures AlwaysCareful(StoreNew(id, status)) && AlwaysCareful(UpdateTask(status, message, at))
    ensures AlwaysCareful(UpdateRun(status, message, at) + [Publish])
    ensures AlwaysCareful([Clone, SetSlice(text), Take]) && AlwaysCareful([Clone, AppendSlice(text), Take])
    ensures AlwaysCareful([Clone, SetSlice(text), SetUpdatedAt(at), Publish, Take])
    ensures AlwaysCareful([LoadPublished(id)])
  {
    // Each block from its last operation to its first.
    assert forall hold: Hold :: !hold.Nothing? ==> Careful([Take], hold, true);
    assert Careful([Publish], Taken, true) && Careful([Publish], Own, true);
    assert Careful([Publish, Take], Own, true) && Careful([Take, Publish], Own, true);
    assert Careful([SetStatus(status, message, false, at), Publish, Take], Own, true);
    assert Careful([SetStatus(status, message, true, at), Take, Publish], Own, true);
    assert Careful([SetUpdatedAt(at), Publish, Take], Own, true);
    assert Careful([SetSlice(text), SetUpdatedAt(at), Publish, Take], Own, true);
    assert Careful([SetSlice(text), Take], Own, true) && Careful([AppendSlice(text), Take], Own, true);
    assert UpdateRun(status, message, at) + [Publish] == [Clone, SetStatus(status, message, true, at), Take, Publish];
  }

  lemma {:induction false} PartialsAreCareful(texts: seq<string>, at: int)
    ensures AlwaysCareful(StorePartials(texts, at))
    decreases |texts|
  {
    if texts != [] {
      BlocksAreCareful("", texts[0], "", "", at);
      PartialsAreCareful(texts[1..], at);
      Then([Clone, SetSlice(texts[0]), SetUpdatedAt(at), Publish, Take], StorePartials(texts[1..], at));
    }
  }

  lemma PartsAreCareful(h: Handler, at: int)
    ensures forall status :: AlwaysCareful(StoreNew(h.id, status))
    ensures forall status, message :: AlwaysCareful(Update(h, status, message, at))
    ensures AlwaysCareful([LoadPublished(h.id)])
    ensures Creates(h) ==> AlwaysCareful(Finish(h, at))
  {
    forall status ensures AlwaysCareful(StoreNew(h.id, status)) {
      BlocksAreCareful(h.id, "", status, "", at);
    }
    forall status, message ensures AlwaysCareful(Update(h, status, message, at)) {
      BlocksAreCareful(h.id, "", status, message, at);
    }
    BlocksAreCareful(h.id, "", "", "", at);
    if Creates(h) && Succeeds(h.reply) {
      BlocksAreCareful(h.id, Collect(h.reply.chunks).body, "completed", "", at);
      Then(SetText(h, Collect(h.reply.chunks).body), Update(h, "completed", "", at));
    }
  }

  lemma HandlersAreAlwaysCareful(h: Handler, at: int)
    ensures AlwaysCareful(Program(h, at))
  {
    PartsAreCareful(h, at);
    hide AlwaysCareful, StoreNew, Update, Finish, StorePartials;
    if Creates(h) {
      var status := if IsTask(h) then "working" else "in-progress";
      PartialsAreCareful(Progress(h), at);
      Then(StorePartials(Progress(h), at), Finish(h, at));
      Then(Update(h, status, "", at), StorePartials(Progress(h), at) + Finish(h, at));
      Then(StoreNew(h.id, if IsTask(h) then "accepted" else "created"),
           if FailsEarly(h) then Finish(h, at)
           else Update(h, status, "", at) + (StorePartials(Progress(h), at) + Finish(h, at)));
    } else {
      Then([LoadPublished(h.id)], Update(h, if h.A2ACancel? then "canceled" else "cancelled", "", at));
    }
  }

  /** On every path, whatever the stream delivers, a handler writes only to its own unpublished copies. */
  lemma HandlersAreCareful(h: Handler, at: int)
    ensures Careful(Program(h, at), Nothing, false)
  {
    HandlersAreAlwaysCareful(h, at);
    var ops := Program(h, at);
    assert Careful(ops, Nothing, true);
    if h.A2ACancel? || h.ACPCancel? {
      assert ops[0].LoadPublished?;
    } else {
      assert ops[0].Create? && ops[1] == Take && ops[2] == Publish;
      assert Careful(ops[1..], Own, true) && Careful(ops[1..][1..], Taken, true);
      assert Careful(ops[1..], Own, false);
    }
  }

  // ---------------------------------------------------------------- every interleaving

  datatype Step =
    | Arrive(t: ThreadId, ops: seq<Op>)   // a handler starts
    | Act(t: ThreadId)                    // a handler takes its next operation
    | Sweep(id: Id)                       // cleanup forgets an entry

  predicate Enabled(s: State, step: Step) {
    match step
    case Arrive(t, _) => t !in s.threads
    case Act(t) => t in s.threads && s.threads[t].ops != []
    case Sweep(_) => true
  }

  function Next(s: State, step: Step): State
    requires Enabled(s, step)
  {
    match step
    case Arrive(t, ops) => s.(threads := s.threads[t := Thread(ops, 0, 0, Nothing, [])])
    case Act(t) => Execute(s, t)
    case Sweep(id) => s.(store := s.store - {id})
  }

  predicate Runs(s: State, steps: seq<Step>)
    decreases |steps|
  {
    steps == [] || (Enabled(s, steps[0]) && Runs(Next(s, steps[0]), steps[1..]))
  }

  function Final(s: State, steps: seq<Step>): State
    requires Runs(s, steps)
    decreases |steps|
  {
    if steps == [] then s else Final(Next(s, steps[0]), steps[1..])
  }

  /** No register of any handler refers to a record another one, or the same one elsewhere, may write. */
  ghost predicate Separate(threads: map<ThreadId, Thread>) {
    && (forall t, t' | t in threads && t' in threads && threads[t'].hold.Own? :: threads[t].current != threads[t'].copy)
    && (forall t, t' | t in threads && t' in threads && threads[t'].hold.Own? && t != t' ::
        threads[t].copy != threads[t'].copy)
  }

  ghost predicate ThreadOk(s: State, th: Thread) {
    && Careful(th.ops, th.hold, th.current != 0) && th.current < s.next && th.copy < s.next
    && (th.current != 0 ==> IsRecord(s.heap, th.current))
    && (if th.hold.Nothing? then th.copy == 0 else IsRecord(s.heap, th.copy))
    && (th.hold.Own? ==> th.copy !in s.published)
  }

  ghost predicate Inv(s: State) {
    && s.next > 0
    && (forall a | a in s.heap :: 0 < a < s.next)
    && (forall a | a in s.published :: a in s.heap)
    && (forall t | t in s.threads :: ThreadOk(s, s.threads[t]))
    && Separate(s.threads)
    && (forall id | id in s.store :: StoredWell(s, id))
  }

  /** What is published stays published and keeps its value. */
  ghost predicate Freezes(s: State, s': State) {
    && (forall a | a in s.heap :: a in s'.heap)
    && (forall a | a in s.published :: a in s'.published)
    && (forall a | a in s.published && a in s.heap && a in s'.heap :: s'.heap[a] == s.heap[a])
  }

  /** The other handlers see no difference in what their registers refer to. */
  ghost predicate OthersUndisturbed(s: State, s': State, t: ThreadId) {
    forall u | u in s.threads && u != t ::
      && u in s'.threads && s'.threads[u] == s.threads[u]
      && View(s'.heap, s.threads[u].current) == View(s.heap, s.threads[u].current)
      && View(s'.heap, s.threads[u].copy) == View(s.heap, s.threads[u].copy)
  }

  ghost predicate Fine(s: State, s': State, t: ThreadId) {
    Inv(s') && Freezes(s, s') && OthersUndisturbed(s, s', t)
  }

  /** A heap that grew at new addresses only, and changed at most one record. */
  ghost predicate Extends(heap: map<Address, Cell>, heap': map<Address, Cell>, next: Address, except: Address) {
    && (forall a | a in heap :: a in heap' && (a != except ==> heap'[a] == heap[a]))
    && (forall a | a in heap' && a !in heap :: next <= a)
  }

  /** What every operation of handler t does at most: it writes to the record `w`, its own, or to none (w == 0),
      and stores nothing another handler owns. */
  ghost predicate Touches(s: State, s': State, t: ThreadId, w: Address) {
    && t in s.threads && s'.threads.Keys == s.threads.Keys
    && (forall u | u in s.threads && u != t :: s'.threads[u] == s.threads[u])
    && Extends(s.heap, s'.heap, s.next, w) && s'.next >= s.next && (forall a | a in s'.heap :: 0 < a < s'.next)
    && (w != 0 ==> s.threads[t].hold.Own? && w == s.threads[t].copy && IsRecord(s'.heap, w))
    && (forall a | a in s.published :: a in s'.published)
    && (forall a | a in s'.published && a !in s.published ::
          a in s'.heap && forall u | u in s.threads && u != t && s.threads[u].hold.Own? :: s.threads[u].copy != a)
    && (forall id | id in s'.store :: (id in s.store && s'.store[id] == s.store[id]) || StoredWell(s', id))
  }

  ghost predicate StoredWell(s: State, id: Id) {
    id in s.store && s.store[id] in s.published && IsRecord(s.heap, s.store[id]) && s.heap[s.store[id]].id == id
    && s.heap[s.store[id]].slice in s.published
  }

  lemma ViewSurvives(s: State, s': State, t: ThreadId, w: Address, a: Address)
    requires Inv(s) && Touches(s, s', t, w) && (a == 0 || (IsRecord(s.heap, a) && a != w))
    ensures View(s'.heap, a) == View(s.heap, a) && (a != 0 ==> IsRecord(s'.heap, a))
  {
    hide Careful;
    if a != 0 && w != 0 {
      assert ThreadOk(s, s.threads[t]);
    }
  }

  lemma OtherIsUndisturbed(s: State, s': State, t: ThreadId, w: Address, u: ThreadId)
    requires Inv(s) && Touches(s, s', t, w) && u in s.threads && u != t
    ensures ThreadOk(s', s'.threads[u])
    ensures View(s'.heap, s.threads[u].current) == View(s.heap, s.threads[u].current)
    ensures View(s'.heap, s.threads[u].copy) == View(s.heap, s.threads[u].copy)
  {
    hide Careful, View;
    assert ThreadOk(s, s.threads[u]) && ThreadOk(s, s.threads[t]);
    if s.threads[u].current != w || w == 0 {
      ViewSurvives(s, s', t, w, s.threads[u].current);
    }
    if s.threads[u].copy != w || w == 0 {
      ViewSurvives(s, s', t, w, s.threads[u].copy);
    }
  }

  lemma TouchingFreezes(s: State, s': State, t: ThreadId, w: Address)
    requires Inv(s) && Touches(s, s', t, w)
    ensures Freezes(s, s') && forall id | id in s'.store :: StoredWell(s', id)
  {
    hide Careful, View;
    assert ThreadOk(s, s.threads[t]);
    forall id | id in s'.store ensures StoredWell(s', id) {
      if id in s.store && s'.store[id] == s.store[id] {
        assert StoredWell(s, id);
      }
    }
  }

  /** An operation that touches what it may is fine when its own handler comes out right. */
  lemma TouchingIsFine(s: State, s': State, t: ThreadId, w: Address)
    requires Inv(s) && Touches(s, s', t, w)
    requires ThreadOk(s', s'.threads[t]) && Separate(s'.threads)
    ensures Fine(s, s', t)
  {
    TouchingFreezes(s, s', t, w);
    hide Careful, View;
    forall u | u in s.threads && u != t
      ensures ThreadOk(s', s'.threads[u])
      ensures View(s'.heap, s.threads[u].current) == View(s.heap, s.threads[u].current)
      ensures View(s'.heap, s.threads[u].copy) == View(s.heap, s.threads[u].copy)
    {
      OtherIsUndisturbed(s, s', t, w, u);
    }
  }

  // ---------------------------------------------------------------- what a handler stores

  function Marked(v: Snapshot, status: string, message: string, keeps: bool): Snapshot {
    v.(status := status, message := MessageNow(v.message, message, keeps))
  }

  function CurrentAfter(op: Op, current: Snapshot, copy: Snapshot): Snapshot {
    if op.Take? then copy else current
  }

  function CopyAfter(op: Op, current: Snapshot, copy: Snapshot): Snapshot {
    match op
    case Create(id, status) => Snapshot(id, status, "", [])
    case Clone => current
    case Alias => current
    case SetStatus(status, message, keeps, _) => Marked(copy, status, message, keeps)
    case SetSlice(text) => copy.(texts := [text])
    case AppendSlice(text) => copy.(texts := copy.texts + [text])
    case _ => copy
  }

  /** The snapshots a program will store, from what its registers refer to now. */
  function Outcome(ops: seq<Op>, current: Snapshot, copy: Snapshot): seq<Snapshot> {
    if ops == [] then []
    else
      var rest := Outcome(ops[1..], CurrentAfter(ops[0], current, copy), CopyAfter(ops[0], current, copy));
      if ops[0].Publish? then [copy] + rest else rest
  }

  /** Everything handler t has stored and is still going to store. */
  function Destiny(s: State, t: ThreadId): seq<Snapshot>
    requires t in s.threads
  {
    var th := s.threads[t];
    th.stored + Outcome(th.ops, View(s.heap, th.current), View(s.heap, th.copy))
  }

  /** What a handler's program lets it do next. */
  lemma NextIsPermitted(s: State, t: ThreadId)
    requires Inv(s) && Enabled(s, Act(t))
    ensures var th := s.threads[t];
            && Permitted(th.ops[0], th.hold, th.current != 0)
            && Careful(th.ops[1..], HoldNext(th.ops[0], th.hold), HasNext(th.ops[0], th.current != 0))
            && (th.current != 0 ==> IsRecord(s.heap, th.current))
            && (th.hold.Nothing? <==> th.copy == 0) && (th.copy != 0 ==> IsRecord(s.heap, th.copy))
            && (th.hold.Own? ==> th.copy !in s.published)
  {
    assert ThreadOk(s, s.threads[t]);
  }

  /** A careful handler's operation goes through, unless it is a load that finds nothing. */
  lemma NextGoes(s: State, t: ThreadId)
    requires Inv(s) && Enabled(s, Act(t)) && !s.threads[t].ops[0].LoadPublished?
    ensures CanGo(s, s.threads[t])
  {
    NextIsPermitted(s, t);
  }

  lemma StoppingTouches(s: State, t: ThreadId)
    requires Inv(s) && Enabled(s, Act(t)) && !CanGo(s, s.threads[t])
    ensures Touches(s, Execute(s, t), t, 0)
  {
    hide Careful, View, ThreadOk, Separate, StoredWell, CanGo;
  }

  lemma StoppedThread(s: State, t: ThreadId)
    requires Inv(s) && Enabled(s, Act(t)) && !CanGo(s, s.threads[t])
    ensures ThreadOk(Execute(s, t), Execute(s, t).threads[t]) && Separate(Execute(s, t).threads)
  {
    assert ThreadOk(s, s.threads[t]);
    hide View, StoredWell, CanGo, IsRecord;
  }

  lemma StoppingIsFine(s: State, t: ThreadId)
    requires Inv(s) && Enabled(s, Act(t)) && !CanGo(s, s.threads[t])
    ensures Fine(s, Execute(s, t), t)
  {
    hide Careful, View, ThreadOk, Separate, Touches, Execute, CanGo, Inv, Fine;
    StoppingTouches(s, t);
    StoppedThread(s, t);
    TouchingIsFine(s, Execute(s, t), t, 0);
  }

  lemma StoredIsNobodys(s: State, id: Id)
    requires Inv(s) && id in s.store
    ensures IsRecord(s.heap, s.store[id]) && s.store[id] != 0
    ensures forall u | u in s.threads && s.threads[u].hold.Own? :: s.threads[u].copy != s.store[id]
  {
    assert StoredWell(s, id);
    forall u | u in s.threads && s.threads[u].hold.Own? ensures s.threads[u].copy != s.store[id] {
      assert ThreadOk(s, s.threads[u]);
    }
  }

  lemma RegistersStayApart(s: State, t: ThreadId)
    requires Inv(s) && Enabled(s, Act(t)) && CanGo(s, s.threads[t])
    ensures Separate(s.threads[t := Registers(s, s.threads[t])])
  {
    NextIsPermitted(s, t);
    forall u | u in s.threads ensures s.threads[u].current < s.next && s.threads[u].copy < s.next {
      assert ThreadOk(s, s.threads[u]);
    }
    if s.threads[t].ops[0].LoadPublished? {
      StoredIsNobodys(s, s.threads[t].ops[0].id);
    }
    hide Careful, View, ThreadOk, StoredWell, IsRecord;
  }

  /** The record an operation may write to. */
  function Written(th: Thread): Address
    requires th.ops != []
  {
    if Writes(th.ops[0]) then th.copy else 0
  }

  lemma MemoryGrows(s: State, th: Thread)
    requires th.ops != [] && CanGo(s, th) && (th.ops[0].Create? || th.ops[0].Clone?)
    requires forall a | a in s.heap :: 0 < a < s.next
    ensures var heap := Memory(s, th);
            && Extends(s.heap, heap, s.next, 0) && (forall a | a in heap :: a < s.next + 2)
            && IsRecord(heap, s.next + 1)
  {}

  lemma MemoryChanges(s: State, th: Thread)
    requires th.ops != [] && CanGo(s, th) && Writes(th.ops[0])
    requires forall a | a in s.heap :: 0 < a < s.next
    ensures var heap := Memory(s, th);
            && Extends(s.heap, heap, s.next, th.copy) && (forall a | a in heap :: a < s.next + 2)
            && IsRecord(heap, th.copy)
  {
    var heap, record := Memory(s, th), s.heap[th.copy];
    if th.ops[0].SetSlice? || th.ops[0].AppendSlice? {
      assert heap[th.copy] == record.(slice := s.next) && heap[s.next].Slice?;
    } else {
      assert heap[th.copy].slice == record.slice && record.slice != th.copy;
    }
  }

  lemma MemoryExtends(s: State, t: ThreadId)
    requires Inv(s) && Enabled(s, Act(t)) && CanGo(s, s.threads[t])
    ensures var heap, w := Memory(s, s.threads[t]), Written(s.threads[t]);
            Extends(s.heap, heap, s.next, w) && (forall a | a in heap :: 0 < a < s.next + 2)
                && (w != 0 ==> IsRecord(heap, w))
  {
    var th := s.threads[t];
    assert forall a | a in s.heap :: 0 < a < s.next;
    hide Careful, View, Separate, ThreadOk, StoredWell, IsRecord;
    if Writes(th.ops[0]) {
      MemoryChanges(s, th);
    } else if th.ops[0].Create? || th.ops[0].Clone? {
      MemoryGrows(s, th);
    }
  }

  lemma ActTouches(s: State, t: ThreadId)
    requires Inv(s) && Enabled(s, Act(t)) && CanGo(s, s.threads[t]) && !s.threads[t].ops[0].Publish?
    ensures Touches(s, Execute(s, t), t, Written(s.threads[t]))
  {
    NextIsPermitted(s, t);
    MemoryExtends(s, t);
    hide Careful, View, Separate, ThreadOk, Memory, Extends, StoredWell, IsRecord;
  }

  lemma PublishingTouches(s: State, t: ThreadId)
    requires Inv(s) && Enabled(s, Act(t)) && s.threads[t].ops[0].Publish?
    ensures Touches(s, Execute(s, t), t, 0)
  {
    NextIsPermitted(s, t);
    forall u | u in s.threads && u != t && s.threads[u].hold.Own?
      ensures s.threads[u].copy != s.threads[t].copy && s.threads[u].copy != s.heap[s.threads[t].copy].slice
    {
      assert ThreadOk(s, s.threads[u]);
    }
    hide Careful, View, Separate, ThreadOk, Permitted, Memory;
    assert StoredWell(Execute(s, t), s.heap[s.threads[t].copy].id);
  }

  /** After an operation current refers to what its register says, a record, and has the value it had. */
  lemma OwnCurrent(s: State, t: ThreadId)
    requires Inv(s) && Enabled(s, Act(t)) && CanGo(s, s.threads[t])
    requires Touches(s, Execute(s, t), t, Written(s.threads[t]))
    ensures var th, s' := s.threads[t], Execute(s, t);
            var now := s'.threads[t].current;
            && (now != 0 <==> HasNext(th.ops[0], th.current != 0)) && (now != 0 ==> IsRecord(s'.heap, now))
                && now < s'.next
            && (!th.ops[0].LoadPublished? ==>
                  View(s'.heap, now) == if th.ops[0].Take? then View(s.heap, th.copy) else View(s.heap, th.current))
  {
    NextIsPermitted(s, t);
    var th, s' := s.threads[t], Execute(s, t);
    assert Written(th) != 0 ==> Written(th) != th.current;
    if th.ops[0].LoadPublished? {
      StoredIsNobodys(s, th.ops[0].id);
      ViewSurvives(s, s', t, 0, s'.threads[t].current);
    } else {
      ViewSurvives(s, s', t, Written(th), if th.ops[0].Take? then th.copy else th.current);
    }
    assert s'.threads[t].current != 0 ==> s'.threads[t].current in s'.heap;
    hide Careful, View, Separate, StoredWell, IsRecord, ThreadOk, Memory, Inv;
  }

  lemma OwnCopy(s: State, t: ThreadId)
    requires Inv(s) && Enabled(s, Act(t)) && CanGo(s, s.threads[t])
    requires Touches(s, Execute(s, t), t, Written(s.threads[t]))
    ensures var th', s' := Execute(s, t).threads[t], Execute(s, t);
            && (if th'.hold.Nothing? then th'.copy == 0 else IsRecord(s'.heap, th'.copy)) && th'.copy < s'.next
            && (th'.hold.Own? ==> th'.copy !in s'.published)
  {
    NextIsPermitted(s, t);
    var th, s' := s.threads[t], Execute(s, t);
    if th.ops[0].Create? || th.ops[0].Clone? {
      MemoryGrows(s, th);
    } else if th.ops[0].Alias? {
      ViewSurvives(s, s', t, 0, th.current);
    } else if !Writes(th.ops[0]) {
      ViewSurvives(s, s', t, 0, th.copy);
    }
    hide Careful, View, Separate, StoredWell, ThreadOk, Memory, IsRecord;
  }

  lemma OwnRegisters(s: State, t: ThreadId)
    requires Inv(s) && Enabled(s, Act(t)) && CanGo(s, s.threads[t])
    requires Touches(s, Execute(s, t), t, Written(s.threads[t]))
    ensures ThreadOk(Execute(s, t), Execute(s, t).threads[t])
  {
    NextIsPermitted(s, t);
    OwnCurrent(s, t);
    OwnCopy(s, t);
    hide Careful, View, Touches, Separate, StoredWell, IsRecord, Memory, Inv;
  }

  lemma ActIsFine(s: State, t: ThreadId)
    requires Inv(s) && Enabled(s, Act(t))
    ensures Fine(s, Execute(s, t), t)
  {
    if !CanGo(s, s.threads[t]) {
      StoppingIsFine(s, t);
    } else {
      RegistersStayApart(s, t);
      assert Separate(Execute(s, t).threads);
      hide Inv, Execute, Touches, Separate, ThreadOk, Fine;
      if s.threads[t].ops[0].Publish? {
        PublishingTouches(s, t);
      } else {
        ActTouches(s, t);
      }
      OwnRegisters(s, t);
      TouchingIsFine(s, Execute(s, t), t, Written(s.threads[t]));
    }
  }

  lemma CopyShows(s: State, t: ThreadId)
    requires Inv(s) && Enabled(s, Act(t)) && CanGo(s, s.threads[t])
    requires Touches(s, Execute(s, t), t, Written(s.threads[t]))
    ensures var th, s' := s.threads[t], Execute(s, t);
            View(s'.heap, s'.threads[t].copy) == CopyAfter(th.ops[0], View(s.heap, th.current), View(s.heap, th.copy))
  {
    NextIsPermitted(s, t);
    var th, s' := s.threads[t], Execute(s, t);
    if th.ops[0].Alias? {
      ViewSurvives(s, s', t, 0, th.current);
      hide Inv, Touches, View, Memory, Careful, ThreadOk, Separate, IsRecord;
    } else if Writes(th.ops[0]) {
      MemoryShows(s, th);
      hide Inv, Touches, View, Memory, Careful, ThreadOk, Separate, IsRecord;
    } else if th.ops[0].Create? || th.ops[0].Clone? {
      MemoryShows(s, th);
      hide Inv, Touches, View, Memory, Careful, ThreadOk, Separate, IsRecord;
    } else {
      ViewSurvives(s, s', t, 0, th.copy);
      hide Inv, Touches, View, Memory, Careful, ThreadOk, Separate, IsRecord;
    }
  }

  lemma MemoryShows(s: State, th: Thread)
    requires th.ops != [] && CanGo(s, th) && (Writes(th.ops[0]) || th.ops[0].Create? || th.ops[0].Clone?)
    requires forall a | a in s.heap :: 0 < a < s.next
    ensures View(Memory(s, th), if Writes(th.ops[0]) then th.copy else s.next + 1)
         == CopyAfter(th.ops[0], View(s.heap, th.current), View(s.heap, th.copy))
  {
    if Writes(th.ops[0]) {
      MemoryChanges(s, th);
    } else {
      MemoryGrows(s, th);
    }
  }

  /** One operation of a handler brings its history one step further. */
  lemma ActKeepsDestiny(s: State, t: ThreadId)
    requires Inv(s) && Enabled(s, Act(t)) && !s.threads[t].ops[0].LoadPublished?
    ensures t in Execute(s, t).threads && Destiny(Execute(s, t), t) == Destiny(s, t)
  {
    NextGoes(s, t);
    if s.threads[t].ops[0].Publish? {
      PublishingTouches(s, t);
    } else {
      ActTouches(s, t);
    }
    OwnCurrent(s, t);
    CopyShows(s, t);
    hide Inv, Touches, View, Memory, Careful, CanGo;
    var th := s.threads[t];
    var current, copy := View(s.heap, th.current), View(s.heap, th.copy);
    var later := Outcome(th.ops[1..], CurrentAfter(th.ops[0], current, copy), CopyAfter(th.ops[0], current, copy));
    assert th.stored + [copy] + later == th.stored + ([copy] + later);
  }

  lemma FreezesChain(s: State, s1: State, s2: State)
    requires Inv(s) && Freezes(s, s1) && Freezes(s1, s2)
    ensures Freezes(s, s2)
  {}

  /** The handlers that arrive are handlers of the two bridges. */
  ghost predicate Genuine(steps: seq<Step>) {
    forall step | step in steps && step.Arrive? :: exists h, at :: step.ops == Program(h, at)
  }

  lemma StepKeeps(s: State, step: Step)
    requires Inv(s) && Enabled(s, step) && Genuine([step])
    ensures Inv(Next(s, step)) && Freezes(s, Next(s, step))
    ensures forall t | t in s.threads && (step.Act? ==> step.t != t) ::
              && t in Next(s, step).threads && Next(s, step).threads[t].ops == s.threads[t].ops
              && Destiny(Next(s, step), t) == Destiny(s, t)
  {
    match step
    case Arrive(t, ops) =>
      assert step in [step];
      var h, at :| ops == Program(h, at);
      HandlersAreCareful(h, at);
    case Act(t) => ActIsFine(s, t);
    case Sweep(_) =>
  }

  lemma {:induction false} RunFreezes(s: State, steps: seq<Step>)
    requires Inv(s) && Runs(s, steps) && Genuine(steps)
    ensures Inv(Final(s, steps)) && Freezes(s, Final(s, steps))
    decreases |steps|
  {
    if steps != [] {
      var s1 := Next(s, steps[0]);
      assert steps[0] in steps;
      StepKeeps(s, steps[0]);
      assert forall step | step in steps[1..] :: step in steps;
      RunFreezes(s1, steps[1..]);
      FreezesChain(s, s1, Final(s, steps));
    }
  }

  /** In every interleaving of the bridges' handlers with each other, with cancels and with the sweep,
      a snapshot once published keeps its value, and so does its slice; what the store holds is published. */
  lemma SnapshotsAreImmutable(before: seq<Step>, after: seq<Step>)
    requires Runs(Initial(), before) && Genuine(before) && Genuine(after)
    requires Runs(Final(Initial(), before), after)
    ensures var s := Final(Initial(), before);
            var s' := Final(s, after);
            && (forall id | id in s.store :: s.store[id] in s.published && IsRecord(s.heap, s.store[id])
                  && s.heap[s.store[id]].slice in s.published)
            && (forall a | a in s.published :: a in s.heap && a in s'.heap && s'.heap[a] == s.heap[a])
  {
    RunFreezes(Initial(), before);
    RunFreezes(Final(Initial(), before), after);
  }

  ghost predicate Loads(ops: seq<Op>) {
    exists op :: op in ops && op.LoadPublished?
  }

  lemma StepKeepsDestiny(s: State, step: Step, t: ThreadId)
    requires Inv(s) && Enabled(s, step) && Genuine([step]) && t in s.threads && !Loads(s.threads[t].ops)
    ensures var s' := Next(s, step);
            Inv(s') && t in s'.threads && !Loads(s'.threads[t].ops) && Destiny(s', t) == Destiny(s, t)
  {
    StepKeeps(s, step);
    if step == Act(t) {
      assert s.threads[t].ops[0] in s.threads[t].ops;
      ActKeepsDestiny(s, t);
      ActTakesTheNext(s, t);
    }
    hide Inv, Execute, Destiny, Freezes;
  }

  lemma ActTakesTheNext(s: State, t: ThreadId)
    requires Enabled(s, Act(t))
    ensures t in Execute(s, t).threads
    ensures var ops := Execute(s, t).threads[t].ops; ops == s.threads[t].ops[1..] || ops == []
  {}

  lemma {:induction false} DestinyIsKept(s: State, steps: seq<Step>, t: ThreadId)
    requires Inv(s) && Runs(s, steps) && Genuine(steps)
    requires t in s.threads && !Loads(s.threads[t].ops)
    ensures t in Final(s, steps).threads && Destiny(Final(s, steps), t) == Destiny(s, t)
    decreases |steps|
  {
    hide Inv, Destiny, Execute;
    if steps != [] {
      assert steps[0] in steps;
      StepKeepsDestiny(s, steps[0], t);
      assert forall step | step in steps[1..] :: step in steps;
      DestinyIsKept(Next(s, steps[0]), steps[1..], t);
    }
  }

  /** The snapshots of a streaming loop, from the given status on. */
  function PartialSnapshots(id: Id, status: string, texts: seq<string>): seq<Snapshot> {
    if texts == [] then [] else [Snapshot(id, status, "", [texts[0]])] + PartialSnapshots(id, status, texts[1..])
  }

  function LastOf(texts: seq<string>, otherwise: seq<string>): seq<string> {
    if texts == [] then otherwise else [texts[|texts| - 1]]
  }

  /** The last snapshot of a reply: the whole body, or a failure that keeps the last partial text. */
  function Ending(id: Id, reply: Reply, partials: seq<string>): Snapshot {
    if Succeeds(reply) then Snapshot(id, "completed", "", [Collect(reply.chunks).body])
    else Snapshot(id, "failed", FailureOf(reply), LastOf(partials, []))
  }

  /** What a request that creates a task or run leaves in the store, in order. */
  function History(h: Handler): seq<Snapshot>
    requires Creates(h)
  {
    var working := if IsTask(h) then "working" else "in-progress";
    [Snapshot(h.id, if IsTask(h) then "accepted" else "created", "", [])]
    + (if FailsEarly(h) then [] else [Snapshot(h.id, working, "", [])])
    + PartialSnapshots(h.id, working, Progress(h))
    + [Ending(h.id, h.reply, Progress(h))]
  }

  lemma Unroll(op: Op, rest: seq<Op>, current: Snapshot, copy: Snapshot)
    ensures var later := Outcome(rest, CurrentAfter(op, current, copy), CopyAfter(op, current, copy));
            Outcome([op] + rest, current, copy) == if op.Publish? then [copy] + later else later
  {
    assert ([op] + rest)[1..] == rest;
  }

  lemma StoreNewOutcome(id: Id, status: string, rest: seq<Op>, current: Snapshot, copy: Snapshot)
    ensures Outcome(StoreNew(id, status) + rest, current, copy)
         == [Snapshot(id, status, "", [])] + Outcome(rest, Snapshot(id, status, "", []), Snapshot(id, status, "", []))
  {
    hide Outcome;
    var snapshot := Snapshot(id, status, "", []);
    Unroll(Publish, rest, snapshot, snapshot);
    Unroll(Take, [Publish] + rest, current, snapshot);
    Unroll(Create(id, status), [Take] + ([Publish] + rest), current, copy);
    assert StoreNew(id, status) + rest == [Create(id, status)] + ([Take] + ([Publish] + rest));
  }

  lemma UpdateOutcome(status: string, message: string, at: int, rest: seq<Op>, current: Snapshot, copy: Snapshot)
    ensures var v := Marked(current, status, message, false);
            Outcome(UpdateTask(status, message, at) + rest, current, copy) == [v] + Outcome(rest, v, v)
    ensures var v := Marked(current, status, message, true);
            Outcome(UpdateRun(status, message, at) + [Publish] + rest, current, copy) == [v] + Outcome(rest, v, v)
  {
    hide Outcome, Marked;
    var v, v' := Marked(current, status, message, false), Marked(current, status, message, true);
    var mark, mark' := SetStatus(status, message, false, at), SetStatus(status, message, true, at);
    Unroll(Take, rest, current, v);
    Unroll(Publish, [Take] + rest, current, v);
    Unroll(mark, [Publish] + ([Take] + rest), current, current);
    Unroll(Clone, [mark] + ([Publish] + ([Take] + rest)), current, copy);
    assert UpdateTask(status, message, at) + rest == [Clone] + ([mark] + ([Publish] + ([Take] + rest)));
    Unroll(Publish, rest, v', v');
    Unroll(Take, [Publish] + rest, current, v');
    Unroll(mark', [Take] + ([Publish] + rest), current, current);
    Unroll(Clone, [mark'] + ([Take] + ([Publish] + rest)), current, copy);
    assert UpdateRun(status, message, at) + [Publish] + rest == [Clone] + ([mark'] + ([Take] + ([Publish] + rest)));
  }

  lemma TextOutcome(text: string, rest: seq<Op>, current: Snapshot, copy: Snapshot)
    ensures var snapshot := current.(texts := [text]);
            && Outcome([Clone, SetSlice(text), Take] + rest, current, copy) == Outcome(rest, snapshot, snapshot)
            && (current.texts == [] ==>
                  Outcome([Clone, AppendSlice(text), Take] + rest, current, copy) == Outcome(rest, snapshot, snapshot))
  {
    hide Outcome;
    var snapshot := current.(texts := [text]);
    Unroll(Take, rest, current, snapshot);
    Unroll(SetSlice(text), [Take] + rest, current, current);
    Unroll(Clone, [SetSlice(text)] + ([Take] + rest), current, copy);
    assert [Clone, SetSlice(text), Take] + rest == [Clone] + ([SetSlice(text)] + ([Take] + rest));
    if current.texts == [] {
      assert current.texts + [text] == [text];
      Unroll(AppendSlice(text), [Take] + rest, current, current);
      Unroll(Clone, [AppendSlice(text)] + ([Take] + rest), current, copy);
      assert [Clone, AppendSlice(text), Take] + rest == [Clone] + ([AppendSlice(text)] + ([Take] + rest));
    }
  }

  lemma {:induction false} PartialsOutcome(texts: seq<string>, at: int, rest: seq<Op>, current: Snapshot,
      copy: Snapshot)
    requires copy == current && current.message == ""
    ensures var last := current.(texts := LastOf(texts, current.texts));
            Outcome(StorePartials(texts, at) + rest, current, copy)
            == PartialSnapshots(current.id, current.status, texts) + Outcome(rest, last, last)
    decreases |texts|
  {
    if texts == [] {
      assert StorePartials(texts, at) + rest == rest;
    } else {
      PartialOutcome(texts[0], at, StorePartials(texts[1..], at) + rest, current);
      PartialsOutcome(texts[1..], at, rest, current.(texts := [texts[0]]), current.(texts := [texts[0]]));
      assert StorePartials(texts, at) + rest
          == [Clone, SetSlice(texts[0]), SetUpdatedAt(at), Publish, Take] + (StorePartials(texts[1..], at) + rest);
    }
  }

  lemma StampedOutcome(at: int, later: seq<Op>, current: Snapshot, copy: Snapshot)
    ensures Outcome([SetUpdatedAt(at), Publish, Take] + later, current, copy) == [copy] + Outcome(later, copy, copy)
  {
    hide Outcome;
    Unroll(Take, later, current, copy);
    Unroll(Publish, [Take] + later, current, copy);
    Unroll(SetUpdatedAt(at), [Publish] + ([Take] + later), current, copy);
    assert [SetUpdatedAt(at), Publish, Take] + later == [SetUpdatedAt(at)] + ([Publish] + ([Take] + later));
  }

  lemma PartialOutcome(text: string, at: int, later: seq<Op>, current: Snapshot)
    ensures var snapshot := current.(texts := [text]);
            Outcome([Clone, SetSlice(text), SetUpdatedAt(at), Publish, Take] + later, current, current)
            == [snapshot] + Outcome(later, snapshot, snapshot)
  {
    hide Outcome;
    var rest := [SetUpdatedAt(at), Publish, Take] + later;
    StampedOutcome(at, later, current, current.(texts := [text]));
    Unroll(SetSlice(text), rest, current, current);
    Unroll(Clone, [SetSlice(text)] + rest, current, current);
    assert [Clone, SetSlice(text), SetUpdatedAt(at), Publish, Take] + later == [Clone] + ([SetSlice(text)] + rest);
  }

  lemma NoOutcome(view: Snapshot)
    ensures Outcome([], view, view) == []
  {}

  lemma FinishOutcome(h: Handler, at: int, current: Snapshot)
    requires Creates(h) && current.message == "" && (h.A2ASend? ==> current.texts == [])
    ensures Outcome(Finish(h, at), current, current)
         == [if Succeeds(h.reply) then Snapshot(current.id, "completed", "", [Collect(h.reply.chunks).body])
             else current.(status := "failed", message := FailureOf(h.reply))]
  {
    hide Outcome;
    if Succeeds(h.reply) {
      var view := current.(texts := [Collect(h.reply.chunks).body]);
      TextOutcome(view.texts[0], Update(h, "completed", "", at), current, current);
      UpdateOutcome("completed", "", at, [], view, view);
      NoOutcome(view.(status := "completed"));
      assert Update(h, "completed", "", at) + [] == Update(h, "completed", "", at);
    } else {
      var message := FailureOf(h.reply);
      UpdateOutcome("failed", message, at, [], current, current);
      NoOutcome(current.(status := "failed", message := message));
      assert Update(h, "failed", message, at) + [] == Update(h, "failed", message, at);
    }
  }

  lemma LongOutcome(h: Handler, at: int)
    requires Creates(h) && !FailsEarly(h)
    ensures Outcome(Program(h, at), NoSnapshot(), NoSnapshot()) == History(h)
  {
    hide Outcome, StoreNew, StorePartials, PartialSnapshots, Finish, Partials, Collect, UpdateTask, UpdateRun;
    var status := if IsTask(h) then "working" else "in-progress";
    var first, end := Snapshot(h.id, if IsTask(h) then "accepted" else "created", "", []), Finish(h, at);
    var now, rest := first.(status := status), StorePartials(Progress(h), at) + end;
    FinishOutcome(h, at, now.(texts := LastOf(Progress(h), [])));
    PartialsOutcome(Progress(h), at, end, now, now);
    UpdateOutcome(status, "", at, rest, first, first);
    StoreNewOutcome(h.id, first.status, Update(h, status, "", at) + rest, NoSnapshot(), NoSnapshot());
    var partials, last := PartialSnapshots(h.id, status, Progress(h)), Ending(h.id, h.reply, Progress(h));
    assert [first] + ([now] + (partials + [last])) == [first] + [now] + partials + [last];
  }

  lemma ShortOutcome(h: Handler, at: int)
    requires Creates(h) && FailsEarly(h)
    ensures Outcome(Program(h, at), NoSnapshot(), NoSnapshot()) == History(h)
  {
    hide Outcome, StoreNew, Finish, Partials, Collect, UpdateTask, UpdateRun;
    var first := Snapshot(h.id, if IsTask(h) then "accepted" else "created", "", []);
    FinishOutcome(h, at, first);
    StoreNewOutcome(h.id, first.status, Finish(h, at), NoSnapshot(), NoSnapshot());
    assert History(h) == [first] + [] + [] + [Ending(h.id, h.reply, [])];
  }

  lemma NeitherLoads(a: seq<Op>, b: seq<Op>)
    requires !Loads(a) && !Loads(b)
    ensures !Loads(a + b)
  {}

  lemma PartsDoNotLoad(h: Handler, status: string, message: string, text: string, at: int)
    ensures !Loads(StoreNew(h.id, status)) && !Loads(Update(h, status, message, at)) && !Loads(SetText(h, text))
  {}

  lemma CreatingPrograms(h: Handler, at: int)
    requires Creates(h)
    ensures !Loads(Program(h, at))
  {
    hide Loads, StoreNew, Update, StorePartials, SetText;
    var body := if h.reply.Streamed? then Collect(h.reply.chunks).body else "";
    forall status ensures !Loads(StoreNew(h.id, status)) {
      PartsDoNotLoad(h, status, "", body, at);
    }
    forall status, message ensures !Loads(Update(h, status, message, at)) {
      PartsDoNotLoad(h, status, message, body, at);
    }
    assert !Loads(SetText(h, body)) by { PartsDoNotLoad(h, "", "", body, at); }
    NeitherLoads(SetText(h, body), Update(h, "completed", "", at));
    PartialsDoNotLoad(Progress(h), at);
    NeitherLoads(StorePartials(Progress(h), at), Finish(h, at));
    var begin := Update(h, if IsTask(h) then "working" else "in-progress", "", at);
    NeitherLoads(begin, StorePartials(Progress(h), at) + Finish(h, at));
    NeitherLoads(StoreNew(h.id, if IsTask(h) then "accepted" else "created"),
                 if FailsEarly(h) then Finish(h, at) else begin + (StorePartials(Progress(h), at) + Finish(h, at)));
  }

  lemma {:induction false} PartialsDoNotLoad(texts: seq<string>, at: int)
    ensures !Loads(StorePartials(texts, at))
    decreases |texts|
  {
    if texts != [] {
      PartialsDoNotLoad(texts[1..], at);
      NeitherLoads([Clone, SetSlice(texts[0]), SetUpdatedAt(at), Publish, Take], StorePartials(texts[1..], at));
    }
  }

  lemma HistoryOf(h: Handler, at: int)
    requires Creates(h)
    ensures Outcome(Program(h, at), NoSnapshot(), NoSnapshot()) == History(h) && !Loads(Program(h, at))
  {
    CreatingPrograms(h, at);
    if FailsEarly(h) {
      ShortOutcome(h, at);
    } else {
      LongOutcome(h, at);
    }
  }

  lemma ArrivalDestiny(s: State, t: ThreadId, h: Handler, at: int)
    requires Inv(s) && Creates(h) && Enabled(s, Arrive(t, Program(h, at)))
    ensures var s' := Next(s, Arrive(t, Program(h, at)));
            t in s'.threads && !Loads(s'.threads[t].ops) && Destiny(s', t) == History(h)
  {
    HistoryOf(h, at);
    assert View(s.heap, 0) == NoSnapshot();
    hide Inv, History, Outcome, Loads, Program;
    assert [] + History(h) == History(h);
  }

  /** Whatever the other handlers, the cancels and the sweep do meanwhile, what a handler has stored so far is a
      beginning of its history, and all of it once the handler is done. */
  lemma HandlersStoreTheirHistory(before: seq<Step>, t: ThreadId, h: Handler, at: int, after: seq<Step>)
    requires Runs(Initial(), before) && Genuine(before) && Genuine(after) && Creates(h)
    requires Enabled(Final(Initial(), before), Arrive(t, Program(h, at)))
    requires Runs(Next(Final(Initial(), before), Arrive(t, Program(h, at))), after)
    ensures var s := Final(Next(Final(Initial(), before), Arrive(t, Program(h, at))), after);
            && t in s.threads && s.threads[t].stored <= History(h)
            && (s.threads[t].ops == [] ==> s.threads[t].stored == History(h))
  {
    RunFreezes(Initial(), before);
    hide Inv, Next, Execute, History, Program, Loads, Runs, Final, Freezes;
    var s, step := Final(Initial(), before), Arrive(t, Program(h, at));
    StepKeeps(s, step);
    ArrivalDestiny(s, t, h, at);
    DestinyIsKept(Next(s, step), after, t);
  }

  // ---------------------------------------------------------------- the histories, handler by handler

  /** A task or run without a bridge fails with a fixed message: A2A send and ACP sync before it is begun, the
      others after. */
  lemma HistoryWithoutBridge(id: Id)
    ensures History(A2ASend(id, NoBridge))
         == [Snapshot(id, "accepted", "", []), Snapshot(id, "failed", "bridge not available", [])]
    ensures History(A2ASubscribe(id, NoBridge))
         == [Snapshot(id, "accepted", "", []), Snapshot(id, "working", "", []),
             Snapshot(id, "failed", "bridge not available", [])]
    ensures History(ACPSync(id, NoBridge))
         == [Snapshot(id, "created", "", []), Snapshot(id, "failed", "bridge not available", [])]
    ensures History(ACPStream(id, NoBridge)) == History(ACPAsync(id, NoBridge))
         == [Snapshot(id, "created", "", []), Snapshot(id, "in-progress", "", []),
             Snapshot(id, "failed", "bridge not available", [])]
  {}

  /** One whose stream cannot be opened fails with the error's text. */
  lemma HistoryWithoutStream(id: Id, error: string)
    ensures History(A2ASend(id, CannotSend(error))) == History(A2ASubscribe(id, CannotSend(error)))
         == [Snapshot(id, "accepted", "", []), Snapshot(id, "working", "", []), Snapshot(id, "failed", error, [])]
    ensures History(ACPSync(id, CannotSend(error))) == History(ACPStream(id, CannotSend(error)))
         == History(ACPAsync(id, CannotSend(error)))
         == [Snapshot(id, "created", "", []), Snapshot(id, "in-progress", "", []), Snapshot(id, "failed", error, [])]
  {}

  lemma HistoryIsLaidOut(h: Handler)
    requires Creates(h) && h.reply.Streamed?
    ensures var hist, partials := History(h), Progress(h);
            var now := if h.A2ASend? || h.A2ASubscribe? then "working" else "in-progress";
      && |hist| == 3 + |partials|
      && hist[0] == Snapshot(h.id, if h.A2ASend? || h.A2ASubscribe? then "accepted" else "created", "", [])
      && hist[1] == Snapshot(h.id, now, "", [])
      && (forall i | 0 <= i < |partials| :: hist[2 + i] == Snapshot(h.id, now, "", [partials[i]]))
      && hist[|hist| - 1] == Ending(h.id, h.reply, partials)
  {
    var now := if IsTask(h) then "working" else "in-progress";
    PartialSnapshotsAre(h.id, now, Progress(h));
    hide PartialSnapshots, Progress, Ending;
    assert !FailsEarly(h);
  }

  lemma StreamEnding(h: Handler, e: nat)
    requires Creates(h) && h.reply.Streamed? && EndsAt(h.reply.chunks, e)
    ensures var chunks, shows := h.reply.chunks, h.A2ASubscribe? || h.ACPStream?;
            var failed := e < |chunks| && chunks[e].error.Err? && chunks[e].error.message != "";
            Ending(h.id, h.reply, Progress(h)) ==
              if !failed then Snapshot(h.id, "completed", "", [AllData(chunks[..ShownUpTo(chunks, e)])])
              else Snapshot(h.id, "failed", chunks[e].error.message,
                            if shows && Shown(chunks[..e]) > 0 then [AllData(chunks[..e])] else [])
  {
    var chunks := h.reply.chunks;
    CollectAt(chunks, e);
    assert chunks[..|chunks|] == chunks;
    PartialsAre(chunks, e);
    PartialsGrow("", chunks);
    hide Collect, Partials, AllData, Shown, EndsAt, Growing;
    assert "" + Collect(chunks).body == Collect(chunks).body;
  }

  /** What a stream leaves behind, by its chunks alone. Chunk e is the first that ends it. The streaming handlers
      store one snapshot for every chunk with data, each with all the data so far. The last snapshot is failed with the
      message of chunk e, if that has an error that says anything, and otherwise completed with all the data. */
  lemma HistoryOfStream(h: Handler, e: nat)
    requires Creates(h) && h.reply.Streamed? && EndsAt(h.reply.chunks, e)
    ensures var chunks, hist := h.reply.chunks, History(h);
            var task, shows := h.A2ASend? || h.A2ASubscribe?, h.A2ASubscribe? || h.ACPStream?;
            var n := if e < |chunks| && !chunks[e].error.Err? then e + 1 else e;
            var failed := e < |chunks| && chunks[e].error.Err? && chunks[e].error.message != "";
            var now := if task then "working" else "in-progress";
      && |hist| == 3 + (if shows then Shown(chunks[..n]) else 0)
      && hist[0] == Snapshot(h.id, if task then "accepted" else "created", "", [])
      && hist[1] == Snapshot(h.id, now, "", [])
      && (shows ==> forall j | 0 <= j < n && chunks[j].data != "" ::
            2 + Shown(chunks[..j]) < |hist| - 1
            && hist[2 + Shown(chunks[..j])] == Snapshot(h.id, now, "", [AllData(chunks[..j + 1])]))
      && hist[|hist| - 1] ==
           if !failed then Snapshot(h.id, "completed", "", [AllData(chunks[..n])])
           else Snapshot(h.id, "failed", chunks[e].error.message,
                         if shows && Shown(chunks[..e]) > 0 then [AllData(chunks[..e])] else [])
  {
    HistoryIsLaidOut(h);
    StreamEnding(h, e);
    PartialsAre(h.reply.chunks, e);
    hide History, Ending, AllData, Shown, EndsAt, Partials;
  }

  lemma {:induction false} PartialSnapshotsAre(id: Id, status: string, texts: seq<string>)
    ensures |PartialSnapshots(id, status, texts)| == |texts|
    ensures forall i | 0 <= i < |texts| ::
              PartialSnapshots(id, status, texts)[i] == Snapshot(id, status, "", [texts[i]])
    decreases |texts|
  {
    if texts != [] {
      PartialSnapshotsAre(id, status, texts[1..]);
    }
  }

  // ---------------------------------------------------------------- a handler on its own

  function Acts(t: ThreadId, n: nat): seq<Step> {
    if n == 0 then [] else [Act(t)] + Acts(t, n - 1)
  }

  /** The store shows what the handler stored last. */
  ghost predicate ShowsLast(s: State, t: ThreadId)
    requires t in s.threads
  {
    var stored := s.threads[t].stored;
    stored != [] ==>
      var v := stored[|stored| - 1];
      v.id in s.store && View(s.heap, s.store[v.id]) == v
  }

  lemma ActShowsLast(s: State, t: ThreadId)
    requires Inv(s) && Enabled(s, Act(t)) && !s.threads[t].ops[0].LoadPublished? && ShowsLast(s, t)
    ensures Inv(Execute(s, t)) && t in Execute(s, t).threads && ShowsLast(Execute(s, t), t)
    ensures Execute(s, t).threads[t].ops == s.threads[t].ops[1..]
  {
    NextGoes(s, t);
    ActIsFine(s, t);
    if s.threads[t].ops[0].Publish? {
      PublishingShows(s, t);
    } else {
      OtherActShows(s, t);
    }
    hide Inv, ShowsLast, Freezes, OthersUndisturbed, View, CanGo, Memory;
  }

  lemma OtherActShows(s: State, t: ThreadId)
    requires Enabled(s, Act(t)) && CanGo(s, s.threads[t]) && !s.threads[t].ops[0].Publish? && ShowsLast(s, t)
    requires (forall id | id in s.store :: StoredWell(s, id)) && Freezes(s, Execute(s, t))
    ensures t in Execute(s, t).threads && ShowsLast(Execute(s, t), t)
  {
    var stored, s' := s.threads[t].stored, Execute(s, t);
    assert s'.store == s.store && t in s'.threads && s'.threads[t].stored == stored;
    hide Execute;
    if stored != [] {
      StoredViewStays(s, s', stored[|stored| - 1].id);
    }
  }

  lemma PublishingShows(s: State, t: ThreadId)
    requires Enabled(s, Act(t)) && s.threads[t].ops[0].Publish? && CanGo(s, s.threads[t])
    ensures t in Execute(s, t).threads && ShowsLast(Execute(s, t), t)
  {}

  lemma StoredViewStays(s: State, s': State, id: Id)
    requires StoredWell(s, id) && Freezes(s, s')
    ensures View(s'.heap, s.store[id]) == View(s.heap, s.store[id])
  {}

  lemma {:induction false} ActsFinish(s: State, t: ThreadId, n: nat)
    requires Inv(s) && t in s.threads && ShowsLast(s, t) && !Loads(s.threads[t].ops) && n == |s.threads[t].ops|
    ensures Runs(s, Acts(t, n))
    ensures var s' := Final(s, Acts(t, n)); t in s'.threads && s'.threads[t].ops == [] && ShowsLast(s', t)
    decreases n
  {
    if n > 0 {
      assert s.threads[t].ops[0] in s.threads[t].ops;
      ActShowsLast(s, t);
      hide Inv, ShowsLast, Execute;
      assert Acts(t, n)[1..] == Acts(t, n - 1);
      ActsFinish(Execute(s, t), t, n - 1);
    }
  }

  /** A handler that is left alone never stops halfway: it stores its whole history, and then a reader finds the last
      snapshot of it. */
  lemma AloneItFinishes(before: seq<Step>, t: ThreadId, h: Handler, at: int)
    requires Runs(Initial(), before) && Genuine(before) && Creates(h)
    requires Enabled(Final(Initial(), before), Arrive(t, Program(h, at)))
    ensures var s := Next(Final(Initial(), before), Arrive(t, Program(h, at)));
            var acts := Acts(t, |Program(h, at)|);
      && Runs(s, acts) && t in Final(s, acts).threads && Final(s, acts).threads[t].stored == History(h)
      && h.id in Final(s, acts).store
      && View(Final(s, acts).heap, Final(s, acts).store[h.id]) == History(h)[|History(h)| - 1]
  {
    RunFreezes(Initial(), before);
    var s0, step, n := Final(Initial(), before), Arrive(t, Program(h, at)), |Program(h, at)|;
    var s := Next(s0, step);
    StepKeeps(s0, step);
    ArrivalDestiny(s0, t, h, at);
    assert s.threads[t].stored == [] && s.threads[t].ops == Program(h, at);
    assert ShowsLast(s, t);
    hide Inv, Program, Next, Execute, History, ShowsLast;
    ActsFinish(s, t, n);
    ActsAreGenuine(t, n);
    HandlersStoreTheirHistory(before, t, h, at, Acts(t, n));
    LastIsOf(h);
    ShownIsLast(Final(s, Acts(t, n)), t, h);
  }

  lemma ShownIsLast(s: State, t: ThreadId, h: Handler)
    requires Creates(h) && t in s.threads && ShowsLast(s, t) && s.threads[t].stored == History(h)
    ensures h.id in s.store && View(s.heap, s.store[h.id]) == History(h)[|History(h)| - 1]
  {
    LastIsOf(h);
    hide History;
  }

  lemma LastIsOf(h: Handler)
    requires Creates(h)
    ensures History(h) != [] && History(h)[|History(h)| - 1].id == h.id
  {}

  lemma {:induction false} ActsAreGenuine(t: ThreadId, n: nat)
    ensures Genuine(Acts(t, n))
  {
    if n > 0 {
      ActsAreGenuine(t, n - 1);
    }
  }

  // ---------------------------------------------------------------- what a reader sees

  function CancelStatus(h: Handler): string {
    if h.A2ACancel? then "canceled" else "cancelled"
  }

  /** The snapshot is in the history of a handler that arrived in the run and created the id. */
  ghost predicate FromCreator(past: seq<Step>, v: Snapshot) {
    exists t, h, at :: Arrive(t, Program(h, at)) in past && Creates(h) && h.id == v.id && v in History(h)
  }

  /** A cancel of the id arrived in the run. */
  ghost predicate CancelArrived(past: seq<Step>, id: Id, status: string) {
    exists t, h, at :: Arrive(t, Program(h, at)) in past && !Creates(h) && h.id == id && CancelStatus(h) == status
  }

  /** Or it is such a snapshot with a status that a cancel of the id put on it; a canceled task loses its message. */
  ghost predicate Truthful(past: seq<Step>, v: Snapshot) {
    || FromCreator(past, v)
    || (CancelArrived(past, v.id, v.status)
        && exists u ::
            FromCreator(past, u) && v == u.(status := v.status, message := v.message) && v.message in {u.message, ""})
  }

  ghost predicate AllTruthful(past: seq<Step>, views: seq<Snapshot>) {
    forall v | v in views :: Truthful(past, v)
  }

  /** A handler stores only truthful snapshots, unless it is a cancel that has not loaded yet. */
  ghost predicate Tells(past: seq<Step>, s: State, t: ThreadId)
    requires t in s.threads
  {
    if Loads(s.threads[t].ops) then s.threads[t].stored == [] && IsCancel(past, s.threads[t].ops)
    else AllTruthful(past, Destiny(s, t))
  }

  ghost predicate IsCancel(past: seq<Step>, ops: seq<Op>) {
    exists t, h, at :: Arrive(t, Program(h, at)) in past && !Creates(h) && ops == Program(h, at)
  }

  /** Every stored snapshot was stored by some handler. */
  ghost predicate Accounted(s: State) {
    forall id | id in s.store :: exists t :: t in s.threads && View(s.heap, s.store[id]) in s.threads[t].stored
  }

  function CanceledCopy(h: Handler, v: Snapshot): Snapshot {
    Marked(v, CancelStatus(h), "", !IsTask(h))
  }

  /** A cancel stores the loaded snapshot under its own status. */
  lemma CancelOutcome(h: Handler, at: int, current: Snapshot, copy: Snapshot)
    requires !Creates(h)
    ensures var ops := Program(h, at);
            && ops != [] && ops[0] == LoadPublished(h.id) && !Loads(ops[1..])
            && Outcome(ops[1..], current, copy) == [CanceledCopy(h, current)]
    ensures CanceledCopy(h, current)
         == if h.A2ACancel? then current.(status := "canceled", message := "") else current.(status := "cancelled")
  {
    var status := CancelStatus(h);
    var ops, view := Program(h, at), CanceledCopy(h, current);
    UpdateOutcome(status, "", at, [], current, copy);
    NoOutcome(view);
    assert UpdateTask(status, "", at) + [] == UpdateTask(status, "", at);
    assert UpdateRun(status, "", at) + [Publish] + [] == UpdateRun(status, "", at) + [Publish];
    assert ops[1..] == if h.A2ACancel? then UpdateTask(status, "", at) else UpdateRun(status, "", at) + [Publish];
  }

  lemma CanceledIsTruthful(past: seq<Step>, t: ThreadId, h: Handler, at: int, v: Snapshot)
    requires Arrive(t, Program(h, at)) in past && !Creates(h) && h.id == v.id && Truthful(past, v)
    ensures Truthful(past, CanceledCopy(h, v))
  {
    hide FromCreator, Program, Creates;
    var c := CanceledCopy(h, v);
    assert CancelArrived(past, c.id, c.status);
    if FromCreator(past, v) {
      assert c == v.(status := c.status, message := c.message);
    } else {
      var u :| FromCreator(past, u) && v == u.(status := v.status, message := v.message)
          && v.message in {u.message, ""};
      assert c == u.(status := c.status, message := c.message);
    }
  }

  lemma TruthfulLater(past: seq<Step>, step: Step, v: Snapshot)
    requires Truthful(past, v)
    ensures Truthful(past + [step], v)
  {
    CreatedLater(past, step);
    hide FromCreator, CancelArrived;
  }

  lemma CreatedLater(past: seq<Step>, step: Step)
    ensures forall v | FromCreator(past, v) :: FromCreator(past + [step], v)
    ensures forall id, status | CancelArrived(past, id, status) :: CancelArrived(past + [step], id, status)
  {
    assert forall other | other in past :: other in past + [step];
    forall v | FromCreator(past, v) ensures FromCreator(past + [step], v) {
      var t, h, at :| Arrive(t, Program(h, at)) in past && Creates(h) && h.id == v.id && v in History(h);
      assert Arrive(t, Program(h, at)) in past + [step];
    }
    forall id, status | CancelArrived(past, id, status) ensures CancelArrived(past + [step], id, status) {
      var t, h, at :| Arrive(t, Program(h, at)) in past && !Creates(h) && h.id == id && CancelStatus(h) == status;
      assert Arrive(t, Program(h, at)) in past + [step];
    }
  }

  lemma TellsLater(past: seq<Step>, step: Step, s: State, t: ThreadId)
    requires t in s.threads && Tells(past, s, t)
    ensures Tells(past + [step], s, t)
  {
    hide Destiny, Truthful, Program, Loads;
    if Loads(s.threads[t].ops) {
      var u, h, at :| Arrive(u, Program(h, at)) in past && !Creates(h) && s.threads[t].ops == Program(h, at);
      assert Arrive(u, Program(h, at)) in past + [step];
    } else {
      forall v | v in Destiny(s, t) ensures Truthful(past + [step], v) {
        TruthfulLater(past, step, v);
      }
    }
  }

  lemma HistoryIsTruthful(past: seq<Step>, t: ThreadId, h: Handler, at: int)
    requires Arrive(t, Program(h, at)) in past && Creates(h)
    ensures AllTruthful(past, History(h))
  {
    forall v | v in History(h) ensures Truthful(past, v) {
      HistoryIsOf(h, v);
      assert FromCreator(past, v);
    }
  }

  lemma ArrivalTells(past: seq<Step>, s: State, step: Step)
    requires Inv(s) && Enabled(s, step) && Genuine([step]) && step.Arrive?
    ensures Tells(past + [step], Next(s, step), step.t)
  {
    assert step in [step] && step in past + [step];
    var h, at :| step.ops == Program(h, at);
    if Creates(h) {
      ArrivalDestiny(s, step.t, h, at);
      HistoryIsTruthful(past + [step], step.t, h, at);
    } else {
      CancelOutcome(h, at, NoSnapshot(), NoSnapshot());
      assert step.ops[0] in step.ops;
      hide Program;
      assert Arrive(step.t, Program(h, at)) in past + [step];
      assert IsCancel(past + [step], step.ops);
    }
  }

  lemma LoadEffect(s: State, t: ThreadId, id: Id)
    requires Enabled(s, Act(t)) && s.threads[t].ops[0] == LoadPublished(id)
    ensures var th, s' := s.threads[t], Execute(s, t);
      && t in s'.threads && s'.threads[t].stored == th.stored
      && (if id in s.store
          then s'.threads[t].ops == th.ops[1..] && View(s'.heap, s'.threads[t].current) == View(s.heap, s.store[id])
          else s'.threads[t].ops == [])
  {}

  /** What a cancel loads was stored by a handler, so what it is going to store is truthful. */
  lemma LoadTells(past: seq<Step>, s: State, t: ThreadId)
    requires Inv(s) && Enabled(s, Act(t)) && s.threads[t].stored == [] && IsCancel(past, s.threads[t].ops)
    requires forall id | id in s.store ::
        Truthful(past, View(s.heap, s.store[id])) && View(s.heap, s.store[id]).id == id
    ensures t in Execute(s, t).threads && AllTruthful(past, Destiny(Execute(s, t), t))
        && !Loads(Execute(s, t).threads[t].ops)
  {
    hide Truthful, Inv, Execute, View, Program;
    var th, s' := s.threads[t], Execute(s, t);
    var u, h, at :| Arrive(u, Program(h, at)) in past && !Creates(h) && th.ops == Program(h, at);
    LoadEffect(s, t, h.id) by { CancelOutcome(h, at, NoSnapshot(), NoSnapshot()); }
    var current, copy := View(s'.heap, s'.threads[t].current), View(s'.heap, s'.threads[t].copy);
    CancelOutcome(h, at, current, copy);
    if h.id in s.store {
      assert Destiny(s', t) == [] + [CanceledCopy(h, current)] == [CanceledCopy(h, current)];
      CanceledIsTruthful(past, u, h, at, current);
    } else {
      NoOutcome(current);
      assert Destiny(s', t) == [] + Outcome([], current, copy) == [];
    }
  }

  lemma OwnStepTells(past: seq<Step>, s: State, t: ThreadId)
    requires Inv(s) && Enabled(s, Act(t)) && Tells(past, s, t)
    requires forall id | id in s.store ::
        Truthful(past, View(s.heap, s.store[id])) && View(s.heap, s.store[id]).id == id
    ensures t in Execute(s, t).threads && Tells(past, Execute(s, t), t)
  {
    if Loads(s.threads[t].ops) {
      LoadTells(past, s, t);
    } else {
      StepKeepsDestiny(s, Act(t), t);
    }
    hide Inv, Execute, Destiny, Loads, IsCancel, AllTruthful;
  }

  lemma OtherStepTells(past: seq<Step>, s: State, step: Step, t: ThreadId)
    requires Inv(s) && Enabled(s, step) && Genuine([step]) && t in s.threads && Tells(past, s, t) && step != Act(t)
    ensures t in Next(s, step).threads && Tells(past, Next(s, step), t)
  {
    StepKeeps(s, step);
    OtherStepLeaves(s, step, t);
    hide Inv, Next, Destiny, Loads, IsCancel, AllTruthful, Freezes, Genuine;
  }

  lemma OtherStepLeaves(s: State, step: Step, t: ThreadId)
    requires Enabled(s, step) && t in s.threads && step != Act(t)
    ensures t in Next(s, step).threads && Next(s, step).threads[t] == s.threads[t]
  {
    assert step.Arrive? ==> step.t != t;
  }

  lemma NewEntryIsAccounted(s: State, step: Step, id: Id)
    requires Enabled(s, step) && id in Next(s, step).store && !(id in s.store && Next(s, step).store[id] == s.store[id])
    ensures step.Act? && step.t in Next(s, step).threads
    ensures var s' := Next(s, step); View(s'.heap, s'.store[id]) in s'.threads[step.t].stored
  {
    var s' := Next(s, step);
    assert step.Act? && s.threads[step.t].ops[0].Publish? && CanGo(s, s.threads[step.t]);
    hide View;
    assert s'.heap == s.heap && s'.store[id] == s.threads[step.t].copy;
    assert s'.threads[step.t].stored == s.threads[step.t].stored + [View(s.heap, s'.store[id])];
  }

  lemma OldEntryIsAccounted(s: State, step: Step, id: Id)
    requires Inv(s) && Enabled(s, step) && Freezes(s, Next(s, step)) && Accounted(s)
    requires id in s.store
    ensures var s' := Next(s, step); exists t :: t in s'.threads && View(s'.heap, s.store[id]) in s'.threads[t].stored
  {
    var s' := Next(s, step);
    assert StoredWell(s, id);
    var t :| t in s.threads && View(s.heap, s.store[id]) in s.threads[t].stored;
    StoredOnlyGrows(s, step, t);
    assert View(s'.heap, s.store[id]) == View(s.heap, s.store[id]);
    hide Inv, Next, View, Freezes, Accounted;
    assert View(s'.heap, s.store[id]) in s'.threads[t].stored;
  }

  lemma StepAccounts(s: State, step: Step)
    requires Inv(s) && Enabled(s, step) && Genuine([step]) && Accounted(s)
    ensures Accounted(Next(s, step))
  {
    StepKeeps(s, step);
    var s' := Next(s, step);
    hide Inv, Next, View, Freezes, Destiny, Genuine, Enabled;
    forall id | id in s'.store
      ensures exists t :: t in s'.threads && View(s'.heap, s'.store[id]) in s'.threads[t].stored
    {
      if id in s.store && s'.store[id] == s.store[id] {
        OldEntryIsAccounted(s, step, id);
      } else {
        NewEntryIsAccounted(s, step, id);
      }
    }
  }

  lemma StoredOnlyGrows(s: State, step: Step, t: ThreadId)
    requires Enabled(s, step) && t in s.threads
    ensures t in Next(s, step).threads && s.threads[t].stored <= Next(s, step).threads[t].stored
  {}

  ghost predicate AllTell(past: seq<Step>, s: State) {
    Accounted(s) && forall t | t in s.threads :: Tells(past, s, t)
  }

  /** So whatever is in the store is truthful. */
  lemma StoreIsTruthful(past: seq<Step>, s: State, id: Id)
    requires Inv(s) && AllTell(past, s) && id in s.store
    ensures Truthful(past, View(s.heap, s.store[id])) && View(s.heap, s.store[id]).id == id
  {
    StoredView(s, id);
    hide Inv, View, Truthful, Outcome, Loads;
    var t :| t in s.threads && View(s.heap, s.store[id]) in s.threads[t].stored;
    assert Tells(past, s, t) && View(s.heap, s.store[id]) in Destiny(s, t);
  }

  lemma StepAllTell(past: seq<Step>, s: State, step: Step)
    requires Inv(s) && Enabled(s, step) && Genuine([step]) && AllTell(past, s)
    ensures AllTell(past + [step], Next(s, step))
  {
    var s' := Next(s, step);
    StepAccounts(s, step);
    forall id | id in s.store
      ensures Truthful(past, View(s.heap, s.store[id])) && View(s.heap, s.store[id]).id == id
    {
      StoreIsTruthful(past, s, id);
    }
    hide Inv, Tells, Accounted, Truthful, View, Next, Enabled, Genuine;
    forall t | t in s'.threads ensures Tells(past + [step], s', t) {
      if t !in s.threads {
        NewcomersArrive(s, step, t);
        ArrivalTells(past, s, step);
      } else {
        OldThreadTells(past, s, step, t);
        TellsLater(past, step, s', t);
      }
    }
  }

  lemma OldThreadTells(past: seq<Step>, s: State, step: Step, t: ThreadId)
    requires Inv(s) && Enabled(s, step) && Genuine([step]) && t in s.threads && Tells(past, s, t)
    requires forall id | id in s.store ::
        Truthful(past, View(s.heap, s.store[id])) && View(s.heap, s.store[id]).id == id
    ensures t in Next(s, step).threads && Tells(past, Next(s, step), t)
  {
    hide Inv, Tells, Truthful, View, Execute, Genuine;
    if step == Act(t) {
      OwnStepTells(past, s, t);
    } else {
      OtherStepTells(past, s, step, t);
    }
  }

  lemma {:induction false} RunTells(past: seq<Step>, s: State, steps: seq<Step>)
    requires Inv(s) && Runs(s, steps) && Genuine(steps) && AllTell(past, s)
    ensures Inv(Final(s, steps)) && AllTell(past + steps, Final(s, steps))
    decreases |steps|
  {
    if steps == [] {
      assert past + steps == past;
    } else {
      assert steps[0] in steps;
      StepKeeps(s, steps[0]);
      StepAllTell(past, s, steps[0]);
      assert forall step | step in steps[1..] :: step in steps;
      assert past + [steps[0]] + steps[1..] == past + steps;
      hide Inv, AllTell, Execute;
      RunTells(past + [steps[0]], Next(s, steps[0]), steps[1..]);
    }
  }

  lemma NewcomersArrive(s: State, step: Step, t: ThreadId)
    requires Enabled(s, step) && t in Next(s, step).threads && t !in s.threads
    ensures step.Arrive? && step.t == t
  {}

  lemma {:induction false} PartialsAreOf(id: Id, status: string, texts: seq<string>)
    ensures forall v | v in PartialSnapshots(id, status, texts) ::
              v.id == id && v.status == status && exists text :: text in texts && v.texts == [text]
    decreases |texts|
  {
    if texts != [] {
      PartialsAreOf(id, status, texts[1..]);
    }
  }

  lemma HistoryIsOf(h: Handler, v: Snapshot)
    requires Creates(h) && v in History(h)
    ensures v.id == h.id
  {
    PartialsAreOf(h.id, if IsTask(h) then "working" else "in-progress", Progress(h));
  }

  lemma StoredView(s: State, id: Id)
    requires Inv(s) && id in s.store
    ensures View(s.heap, s.store[id]).id == id
  {
    assert StoredWell(s, id);
  }

  /** Whatever a reader finds under an id, in any interleaving, is one of the snapshots in the history of a handler
      of this run that created the id, as it is or with a status that a cancel of the id in this run put on it. */
  lemma ReadersSeeHistory(steps: seq<Step>, id: Id)
    requires Runs(Initial(), steps) && Genuine(steps) && id in Final(Initial(), steps).store
    ensures var s := Final(Initial(), steps);
            View(s.heap, s.store[id]).id == id && Truthful(steps, View(s.heap, s.store[id]))
  {
    RunTells([], Initial(), steps);
    assert [] + steps == steps;
    StoreIsTruthful(steps, Final(Initial(), steps), id);
  }

  // ---------------------------------------------------------------- a program that is not careful

  /** The adapter's own cancel handler writes the loaded task in place. */
  function AdapterCancel(id: Id, at: int): seq<Op> {
    [LoadPublished(id), Alias, SetStatus("canceled", "", false, at)]
  }

  /** It is not careful, and it does change a published record. */
  lemma AdapterCancelWritesInPlace(s: State, t: ThreadId, id: Id, at: int)
    requires Inv(s) && t !in s.threads && id in s.store && s.heap[s.store[id]].status != "canceled"
    ensures !Careful(AdapterCancel(id, at), Nothing, false)
    ensures var steps := [Arrive(t, AdapterCancel(id, at)), Act(t), Act(t), Act(t)];
            && Runs(s, steps) && s.store[id] in s.published
            && IsRecord(Final(s, steps).heap, s.store[id]) && Final(s, steps).heap[s.store[id]].status == "canceled"
  {
    assert StoredWell(s, id);
    assert !Careful([SetStatus("canceled", "", false, at)], Stored, true);
    assert !Careful([Alias, SetStatus("canceled", "", false, at)], Nothing, true);
    var s1 := Next(s, Arrive(t, AdapterCancel(id, at)));
    var s2 := Next(s1, Act(t));
    var s3 := Next(s2, Act(t));
    assert s3.threads[t].copy == s.store[id];
    var s4 := Next(s3, Act(t));
    assert Runs(s4, []) && Final(s4, []) == s4;
    assert Runs(s3, [Act(t)]) && Final(s3, [Act(t)]) == s4;
    assert Runs(s2, [Act(t), Act(t)]) && Final(s2, [Act(t), Act(t)]) == s4;
    assert Runs(s1, [Act(t), Act(t), Act(t)]) && Final(s1, [Act(t), Act(t), Act(t)]) == s4;
  }
}
