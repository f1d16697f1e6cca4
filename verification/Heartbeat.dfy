/** Heartbeats, the timeout tick, and the heartbeat misses it records. */
module Heartbeat {
  import opened Timestamps

  /** Seconds of silence after which an online agent is marked offline. */
  const TIMEOUT := 300.0

  const ONLINE := "online"
  const OFFLINE := "offline"

  /** A row of the agents table. Timestamps are stored as whole seconds. */
  datatype Agent = Agent(status: string, registeredAt: int, lastHeartbeat: int)

  type Agents = map<string, Agent>

  datatype Event =
    | Register(id: string, at: real)
    | Beat(id: string, status: string, at: real)
    | Tick(at: real)

  /** Which agents the tick finds: online, with a heartbeat and a registration before the cutoff. */
  predicate Stale(a: Agent, at: real) {
    var cutoff := Stamp(at - TIMEOUT);
    a.status == ONLINE && a.lastHeartbeat < cutoff && a.registeredAt < cutoff
  }

  function Registered(agents: Agents, id: string, at: real): Agents {
    agents[id := Agent(ONLINE, Stamp(at), Stamp(at))]
  }

  /** A heartbeat of an unknown agent is an error and changes nothing. */
  function Beaten(agents: Agents, id: string, status: string, at: real): Agents {
    if id in agents
    then agents[id := agents[id].(status := if status == "" then ONLINE else status, lastHeartbeat := Stamp(at))]
    else agents
  }

  function Ticked(agents: Agents, at: real): Agents {
    map id | id in agents :: if Stale(agents[id], at) then agents[id].(status := OFFLINE) else agents[id]
  }

  function AgentsAfter(events: seq<Event>): Agents {
    if events == [] then map[]
    else
      var before := AgentsAfter(events[..|events| - 1]);
      match events[|events| - 1]
      case Register(id, at) => Registered(before, id, at)
      case Beat(id, status, at) => Beaten(before, id, status, at)
      case Tick(at) => Ticked(before, at)
  }

  /** Event k is a tick that records a miss of the agent. */
  predicate Misses(events: seq<Event>, id: string, k: nat)
    requires k < |events|
  {
    var agents := AgentsAfter(events[..k]);
    events[k].Tick? && id in agents && Stale(agents[id], events[k].at)
  }

  /** Event k is a registration or heartbeat of the agent. */
  predicate IsSignOfLife(e: Event, id: string) {
    !e.Tick? && e.id == id
  }

  function MissesBetween(events: seq<Event>, id: string, i: nat, j: nat): nat
    requires i <= j <= |events|
    decreases j
  {
    if i == j then 0 else MissesBetween(events, id, i, j - 1) + if Misses(events, id, j - 1) then 1 else 0
  }

  function SignsBetween(events: seq<Event>, id: string, i: nat, j: nat): nat
    requires i <= j <= |events|
    decreases j
  {
    if i == j then 0 else SignsBetween(events, id, i, j - 1) + if IsSignOfLife(events[j - 1], id) then 1 else 0
  }

  predicate Online(agents: Agents, id: string) {
    id in agents && agents[id].status == ONLINE
  }

  /** In any stretch of a run an agent gets at most one miss per sign of life in it, and one more if it
      was online when the stretch began; a miss leaves it offline. */
  lemma {:induction false} OneMissPerSign(events: seq<Event>, id: string, i: nat, j: nat)
    requires i <= j <= |events|
    ensures MissesBetween(events, id, i, j) + (if Online(AgentsAfter(events[..j]), id) then 1 else 0)
         <= SignsBetween(events, id, i, j) + (if Online(AgentsAfter(events[..i]), id) then 1 else 0)
    decreases j
  {
    if i < j {
      OneMissPerSign(events, id, i, j - 1);
      assert events[..j][..j - 1] == events[..j - 1];
    }
  }

  /** Over a whole run: never more misses than registrations and heartbeats. */
  lemma MissesOverARun(events: seq<Event>, id: string)
    ensures MissesBetween(events, id, 0, |events|) <= SignsBetween(events, id, 0, |events|)
  {
    OneMissPerSign(events, id, 0, |events|);
  }

  predicate Ordered(events: seq<Event>) {
    forall i, j | 0 <= i < j < |events| :: events[i].at <= events[j].at
  }

  /** The row remembers the latest sign of life. */
  lemma {:induction false} RowIsLatest(events: seq<Event>, id: string, k: nat, j: nat)
    requires Ordered(events) && j < k <= |events| && id in AgentsAfter(events[..k])
    requires IsSignOfLife(events[j], id) && id in AgentsAfter(events[..j + 1])
    ensures Stamp(events[j].at) <= AgentsAfter(events[..k])[id].lastHeartbeat
    decreases k
  {
    assert events[..k][..k - 1] == events[..k - 1];
    if j < k - 1 {
      AgentsStay(events, id, j + 1, k - 1);
      RowIsLatest(events, id, k - 1, j);
    }
  }

  lemma {:induction false} AgentsStay(events: seq<Event>, id: string, j: nat, k: nat)
    requires j <= k <= |events| && id in AgentsAfter(events[..j])
    ensures id in AgentsAfter(events[..k])
    decreases k
  {
    if j < k {
      AgentsStay(events, id, j, k - 1);
      assert events[..k][..k - 1] == events[..k - 1];
    }
  }

  /** A tick that records a miss comes more than five minutes after every sign of life of a registered agent. */
  lemma MissMeansSilence(events: seq<Event>, id: string, k: nat, j: nat)
    requires Ordered(events) && j < k < |events| && Misses(events, id, k)
    requires IsSignOfLife(events[j], id) && id in AgentsAfter(events[..j + 1])
    ensures events[j].at < events[k].at - 300.0
  {
    RowIsLatest(events, id, k, j);
  }

  /** An agent whose latest sign of life before a tick is at most five minutes old gets no miss from it. */
  lemma NoMissWhileBeating(events: seq<Event>, id: string, k: nat, j: nat)
    requires Ordered(events) && j < k < |events|
    requires IsSignOfLife(events[j], id) && id in AgentsAfter(events[..j + 1])
    requires events[k].at - events[j].at <= 300.0
    ensures !Misses(events, id, k)
  {
    if Misses(events, id, k) {
      MissMeansSilence(events, id, k, j);
    }
  }

  /** No sign of life between j and k leaves the heartbeat as event j set it. */
  lemma {:induction false} RowUnchanged(events: seq<Event>, id: string, j: nat, k: nat)
    requires j <= k <= |events| && id in AgentsAfter(events[..j])
    requires forall n | j <= n < k :: !IsSignOfLife(events[n], id)
    ensures id in AgentsAfter(events[..k])
    ensures AgentsAfter(events[..k])[id].lastHeartbeat == AgentsAfter(events[..j])[id].lastHeartbeat
    ensures AgentsAfter(events[..k])[id].registeredAt == AgentsAfter(events[..j])[id].registeredAt
    decreases k
  {
    if j < k {
      RowUnchanged(events, id, j, k - 1);
      assert events[..k][..k - 1] == events[..k - 1];
    }
  }

  lemma {:induction false} RowIsInThePast(events: seq<Event>, id: string, k: nat)
    requires Ordered(events) && 0 < k <= |events| && id in AgentsAfter(events[..k])
    ensures var a := AgentsAfter(events[..k])[id];
            a.registeredAt <= a.lastHeartbeat <= Stamp(events[k - 1].at)
    decreases k
  {
    assert events[..k][..k - 1] == events[..k - 1];
    if k > 1 && id in AgentsAfter(events[..k - 1]) {
      RowIsInThePast(events, id, k - 1);
    }
  }

  /** An agent still online at a tick 301 seconds or more after its last sign of life gets a miss.
      The odd second is what storing whole seconds can cost. */
  lemma SilenceIsNoticed(events: seq<Event>, id: string, j: nat, k: nat)
    requires Ordered(events) && j < k < |events| && IsSignOfLife(events[j], id) && events[k].Tick?
    requires forall n | j < n < k :: !IsSignOfLife(events[n], id)
    requires id in AgentsAfter(events[..j + 1]) && Online(AgentsAfter(events[..k]), id)
    requires events[k].at - events[j].at >= 301.0
    ensures Misses(events, id, k)
  {
    RowIsInThePast(events, id, j + 1);
    RowUnchanged(events, id, j + 1, k);
  }

  /** An agent is known once it has registered. */
  lemma {:induction false} KnownIffRegistered(events: seq<Event>, id: string, k: nat)
    requires k <= |events|
    ensures id in AgentsAfter(events[..k]) <==> exists n :: 0 <= n < k && events[n].Register? && events[n].id == id
    decreases k
  {
    if k > 0 {
      KnownIffRegistered(events, id, k - 1);
      assert events[..k][..k - 1] == events[..k - 1];
    }
  }

  /** Event j is the latest sign of life of the agent before position k, and the agent was known to give it. */
  predicate IsLatestSign(events: seq<Event>, id: string, j: nat, k: nat) {
    && j < k <= |events| && IsSignOfLife(events[j], id) && id in AgentsAfter(events[..j + 1])
    && forall n | j < n < k :: !IsSignOfLife(events[n], id)
  }

  /** A registration says the agent is online, a heartbeat that or what it names. */
  function StatusSaid(e: Event): string {
    if e.Beat? && e.status != "" then e.status else "online"
  }

  lemma SignIsStored(events: seq<Event>, id: string, j: nat)
    requires j < |events| && IsSignOfLife(events[j], id) && id in AgentsAfter(events[..j + 1])
    ensures AgentsAfter(events[..j + 1])[id].status == StatusSaid(events[j])
    ensures AgentsAfter(events[..j + 1])[id].lastHeartbeat == events[j].at.Floor
  {
    assert events[..j + 1][..j] == events[..j];
  }

  lemma OtherEvent(events: seq<Event>, id: string, k: nat)
    requires k < |events| && !IsSignOfLife(events[k], id) && id in AgentsAfter(events[..k])
    ensures id in AgentsAfter(events[..k + 1])
    ensures AgentsAfter(events[..k + 1])[id] ==
              if Misses(events, id, k) then AgentsAfter(events[..k])[id].(status := "offline")
              else AgentsAfter(events[..k])[id]
  {
    assert events[..k + 1][..k] == events[..k];
  }

  /** The table by the history: the time is that of the latest sign of life, the status what it said, until a tick
      records a miss. */
  lemma {:induction false} RowTellsHistory(events: seq<Event>, id: string, j: nat, k: nat)
    requires IsLatestSign(events, id, j, k)
    ensures id in AgentsAfter(events[..k])
    ensures AgentsAfter(events[..k])[id].lastHeartbeat == events[j].at.Floor
    ensures AgentsAfter(events[..k])[id].status ==
              if MissesBetween(events, id, j + 1, k) > 0 then "offline" else StatusSaid(events[j])
    decreases k
  {
    hide AgentsAfter, Misses;
    if k == j + 1 {
      SignIsStored(events, id, j);
    } else {
      RowTellsHistory(events, id, j, k - 1);
      OtherEvent(events, id, k - 1);
    }
  }

  /** Every miss by the history: a tick records one exactly if the latest sign of life said the agent is online, no tick
      has recorded one since, and the time stored with it is before the tick's cutoff. */
  lemma MissDecision(events: seq<Event>, id: string, j: nat, k: nat)
    requires Ordered(events) && k < |events| && IsLatestSign(events, id, j, k)
    ensures Misses(events, id, k) <==>
              && events[k].Tick? && StatusSaid(events[j]) == "online" && MissesBetween(events, id, j + 1, k) == 0
              && events[j].at.Floor < (events[k].at - 300.0).Floor
  {
    RowTellsHistory(events, id, j, k);
    RowIsInThePast(events, id, j + 1);
    SignIsStored(events, id, j);
    RowUnchanged(events, id, j + 1, k);
  }

  // ---------------------------------------------------------------- the registry and the tick

  class Registry {
    var agents: Agents
    /** The agents for which a heartbeat_miss was recorded, in order. */
    var missed: seq<string>

    constructor ()
      ensures agents == map[] && missed == []
    {
      agents := map[];
      missed := [];
    }

    method RegisterAgent(id: string, now: real)
      modifies this`agents
      ensures agents == Registered(old(agents), id, now)
    {
      agents := agents[id := Agent(ONLINE, Stamp(now), Stamp(now))];
    }

    method Heartbeat(id: string, status: string, now: real) returns (ok: bool)
      modifies this`agents
      ensures ok == (id in old(agents)) && agents == Beaten(old(agents), id, status, now)
    {
      var s := status;
      if s == "" {
        s := ONLINE;
      }
      ok := id in agents;
      if ok {
        agents := agents[id := agents[id].(status := s, lastHeartbeat := Stamp(now))];
      }
    }

    method SetStatus(id: string, status: string) returns (ok: bool)
      modifies this`agents
      ensures ok == (id in old(agents))
      ensures agents == if ok then old(agents)[id := old(agents)[id].(status := status)] else old(agents)
    {
      ok := id in agents;
      if ok {
        agents := agents[id := agents[id].(status := status)];
      }
    }

    /** One tick: every stale agent is marked offline and gets exactly one miss. */
    method CheckTimeouts(now: real)
      modifies this
      ensures agents == Ticked(old(agents), now)
      ensures old(missed) <= missed
      ensures multiset(missed[|old(missed)|..]) == multiset(set id | id in old(agents) && Stale(old(agents)[id], now))
    {
      var stale := set id | id in agents && Stale(agents[id], now);
      ghost var todo := stale;
      ghost var was := missed;
      assert missed == was + [];
      ghost var news: seq<string> := [];
      while stale != {}
        invariant stale <= todo
        invariant missed == was + news
        invariant multiset(news) + multiset(stale) == multiset(todo)
        invariant agents == map id | id in old(agents) ::
                    if id in todo && id !in stale then old(agents)[id].(status := OFFLINE) else old(agents)[id]
        decreases |stale|
      {
        var id :| id in stale;
        var ok := SetStatus(id, OFFLINE);
        missed := missed + [id];
        news := news + [id];
        assert multiset(stale) == multiset(stale - {id}) + multiset{id};
        stale := stale - {id};
      }
      assert missed[|was|..] == news;
      assert forall id | id in agents :: agents[id] == Ticked(old(agents), now)[id];
    }
  }
}
