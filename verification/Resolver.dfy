/** Choosing a route, and filling the table from agent cards. */
module Resolver {
  import opened RoutingTable

  datatype Result<T> = Success(value: T) | Failure(error: string)

  /** Strictly preferred: higher priority, or the same and lower latency. */
  predicate Better(a: RouteEntry, b: RouteEntry) {
    if a.priority != b.priority then a.priority > b.priority else a.latencyMs < b.latencyMs
  }

  /** Sorted by preference: nothing later is better. */
  predicate Sorted(routes: seq<RouteEntry>) {
    forall i, j | 0 <= i < j < |routes| :: !Better(routes[j], routes[i])
  }

  /** None has a higher priority, and none of the same priority a lower latency. */
  predicate Unbeaten(best: RouteEntry, routes: seq<RouteEntry>) {
    && best in routes
    && forall r | r in routes ::
         r.priority <= best.priority && (r.priority == best.priority ==> best.latencyMs <= r.latencyMs)
  }

  function Matching(routes: seq<RouteEntry>, protocol: string): seq<RouteEntry> {
    if routes == [] then []
    else
      var r := routes[|routes| - 1];
      Matching(routes[..|routes| - 1], protocol) + if r.protocol == protocol then [r] else []
  }

  lemma {:induction false} MatchingMeaning(routes: seq<RouteEntry>, protocol: string)
    ensures forall r :: r in Matching(routes, protocol) <==> r in routes && r.protocol == protocol
  {
    if routes != [] {
      var init, last := routes[..|routes| - 1], routes[|routes| - 1];
      MatchingMeaning(init, protocol);
      assert routes == init + [last];
    }
  }

  /** Preference has no cycles and its ties are transitive, so any sort by it puts unbeaten routes first. */
  lemma BetterIsAWeakOrder(a: RouteEntry, b: RouteEntry, c: RouteEntry)
    ensures !Better(a, a)
    ensures Better(a, b) && Better(b, c) ==> Better(a, c)
    ensures !Better(a, b) && !Better(b, c) ==> !Better(a, c)
  {}

  /** The head of any rearrangement sorted by preference is unbeaten: which sort is used does not matter. */
  lemma SortedHeadIsUnbeaten(routes: seq<RouteEntry>, sorted: seq<RouteEntry>)
    requires routes != [] && multiset(sorted) == multiset(routes) && Sorted(sorted)
    ensures |sorted| > 0 && Unbeaten(sorted[0], routes)
  {
    assert |sorted| == |multiset(sorted)| == |multiset(routes)| == |routes|;
    assert sorted[0] in multiset(sorted);
    forall r | r in routes
      ensures !Better(r, sorted[0])
    {
      assert r in multiset(sorted);
      var j :| 0 <= j < |sorted| && sorted[j] == r;
    }
  }

  /** Two unbeaten routes tie. */
  lemma UnbeatenTie(routes: seq<RouteEntry>, a: RouteEntry, b: RouteEntry)
    requires Unbeaten(a, routes) && Unbeaten(b, routes)
    ensures a.priority == b.priority && a.latencyMs == b.latencyMs
  {}

  /** A sort of the local slice. */
  method SortRoutes(routes: seq<RouteEntry>) returns (sorted: seq<RouteEntry>)
    ensures multiset(sorted) == multiset(routes) && Sorted(sorted)
  {
    sorted := [];
    for n := 0 to |routes|
      invariant multiset(sorted) == multiset(routes[..n]) && Sorted(sorted)
    {
      var r := routes[n];
      var i := |sorted|;
      while i > 0 && Better(r, sorted[i - 1])
        invariant 0 <= i <= |sorted|
        invariant forall k | i <= k < |sorted| :: Better(r, sorted[k])
      {
        i := i - 1;
      }
      assert routes[..n + 1] == routes[..n] + [r];
      InsertKeepsSorted(sorted, r, i);
      sorted := sorted[..i] + [r] + sorted[i..];
    }
    assert routes[..|routes|] == routes;
  }

  lemma InsertKeepsSorted(sorted: seq<RouteEntry>, r: RouteEntry, i: nat)
    requires Sorted(sorted) && i <= |sorted|
    requires forall k | i <= k < |sorted| :: Better(r, sorted[k])
    requires i > 0 ==> !Better(r, sorted[i - 1])
    ensures Sorted(sorted[..i] + [r] + sorted[i..])
    ensures multiset(sorted[..i] + [r] + sorted[i..]) == multiset(sorted) + multiset{r}
  {
    assert sorted == sorted[..i] + sorted[i..];
    NotBetterThanFront(sorted, r, i);
    SortedAround(sorted[..i], r, sorted[i..]);
  }

  lemma NotBetterThanFront(sorted: seq<RouteEntry>, r: RouteEntry, i: nat)
    requires Sorted(sorted) && i <= |sorted| && (i > 0 ==> !Better(r, sorted[i - 1]))
    ensures forall k | 0 <= k < i :: !Better(r, sorted[k])
  {
    forall k | 0 <= k < i
      ensures !Better(r, sorted[k])
    {
      if k < i - 1 {
        BetterIsAWeakOrder(r, sorted[i - 1], sorted[k]);
      }
    }
  }

  lemma SortedAround(front: seq<RouteEntry>, r: RouteEntry, back: seq<RouteEntry>)
    requires Sorted(front) && Sorted(back)
    requires forall a, b | 0 <= a < |front| && 0 <= b < |back| :: !Better(back[b], front[a])
    requires forall a | 0 <= a < |front| :: !Better(r, front[a])
    requires forall b | 0 <= b < |back| :: !Better(back[b], r)
    ensures Sorted(front + [r] + back)
  {}

  datatype Card = Card(id: string, protocols: seq<string>, endpoint: string, priority: int)

  class Engine {
    const table: Table

    constructor (table: Table)
      ensures this.table == table
    {
      this.table := table;
    }

    /** The best route to a target: of the routes over the protocol, or all of them if none is named, one of the
        highest priority, and of these one of the lowest latency. An error exactly when there is no such route. */
    method Resolve(target: string, protocol: string) returns (r: Result<RouteEntry>)
      ensures var routes := if target in table.routes then table.routes[target] else [];
        && (r.Failure? <==>
              target == "" || forall e | e in routes :: protocol != "" && e.protocol != protocol)
        && (r.Success? ==>
              && r.value in routes && (protocol == "" || r.value.protocol == protocol)
              && forall e | e in routes && (protocol == "" || e.protocol == protocol) ::
                   e.priority <= r.value.priority
                   && (e.priority == r.value.priority ==> r.value.latencyMs <= e.latencyMs))
    {
      if target == "" {
        return Failure("target agent ID is required");
      }
      var routes := table.GetRoutes(target);
      if |routes| == 0 {
        return Failure("no routes found");
      }
      MatchingMeaning(routes, protocol);
      assert routes[0] in routes;
      if protocol != "" {
        var filtered := [];
        for i := 0 to |routes|
          invariant filtered == Matching(routes[..i], protocol)
        {
          assert routes[..i + 1][..i] == routes[..i];
          if routes[i].protocol == protocol {
            filtered := filtered + [routes[i]];
          }
        }
        assert routes[..|routes|] == routes;
        if |filtered| == 0 {
          return Failure("no routes with protocol");
        }
        routes := filtered;
      }
      assert routes[0] in routes;
      var sorted := SortRoutes(routes);
      SortedHeadIsUnbeaten(routes, sorted);
      r := Success(sorted[0]);
    }

    /** Puts in one gateway route per protocol of the card. Routes of protocols the card no longer
        names stay. */
    method UpdateFromCard(card: Card, now: int)
      requires table.Valid()
      modifies table
      ensures table.Valid()
      ensures table.view == WithCard(old(table.view), card, card.protocols, now)
      ensures |table.log| == |old(table.log)| + |card.protocols| && old(table.log) <= table.log
    {
      hide TableMatches, ChannelsOk, WatchersOk, LegalLog, Replay;
      for i := 0 to |card.protocols|
        invariant table.Valid()
        invariant table.view == WithCard(old(table.view), card, card.protocols[..i], now)
        invariant |table.log| == |old(table.log)| + i && old(table.log) <= table.log
      {
        assert card.protocols[..i + 1][..i] == card.protocols[..i];
        table.AddRoute(GatewayRoute(card, card.protocols[i], 0), now);
      }
      assert card.protocols[..|card.protocols|] == card.protocols;
    }

    method RemoveAgent(agent: string, now: int)
      requires table.Valid()
      modifies table
      ensures table.Valid()
      ensures table.routes == old(table.routes) - {agent}
      ensures table.view == map k | k in old(table.view) && k.target != agent :: old(table.view)[k]
    {
      table.RemoveRoute(agent, now);
    }
  }

  const GATEWAY := "gateway"

  function GatewayRoute(card: Card, protocol: string, now: int): RouteEntry {
    RouteEntry(GATEWAY, card.id, protocol, card.endpoint, 0, card.priority, 0, "", now)
  }

  function WithCard(view: View, card: Card, protocols: seq<string>, now: int): View {
    if protocols == [] then view
    else
      var p := protocols[|protocols| - 1];
      WithCard(view, card, protocols[..|protocols| - 1], now)[Key(card.id, GATEWAY, p) := GatewayRoute(card, p, now)]
  }

  /** A card puts exactly its own gateway routes into the table: each protocol it names gets the
      card's endpoint and priority, and every other route is what it was. */
  lemma {:induction false} CardRoutes(view: View, card: Card, protocols: seq<string>, now: int, k: Key)
    ensures k.target == card.id && k.source == "gateway" && k.protocol in protocols ==>
              k in WithCard(view, card, protocols, now)
                  && WithCard(view, card, protocols, now)[k] ==
                       RouteEntry("gateway", card.id, k.protocol, card.endpoint, 0, card.priority, 0, "", now)
    ensures !(k.target == card.id && k.source == "gateway" && k.protocol in protocols) ==>
              (k in WithCard(view, card, protocols, now) <==> k in view)
                  && (k in view ==> WithCard(view, card, protocols, now)[k] == view[k])
  {
    if protocols != [] {
      var init := protocols[..|protocols| - 1];
      CardRoutes(view, card, init, now, k);
      assert protocols == init + [protocols[|protocols| - 1]];
    }
  }
}
