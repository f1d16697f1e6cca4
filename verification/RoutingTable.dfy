/** The routing table, its change log and its watchers. */
module RoutingTable {

  datatype RouteEntry = RouteEntry(
    source: string, target: string, protocol: string, endpoint: string,
    latencyMs: int, priority: int, ttl: int, signature: string, updatedAt: int)

  datatype UpdateKind = Add | Remove | Modify

  datatype RouteUpdate = RouteUpdate(kind: UpdateKind, route: RouteEntry, timestamp: int)

  /** What identifies a route. */
  datatype Key = Key(target: string, source: string, protocol: string)

  type View = map<Key, RouteEntry>

  function KeyOf(e: RouteEntry): Key {
    Key(e.target, e.source, e.protocol)
  }

  // ---------------------------------------------------------------- the change log

  function Apply(view: View, u: RouteUpdate): View {
    if u.kind.Remove? then view - {KeyOf(u.route)} else view[KeyOf(u.route) := u.route]
  }

  /** Additions are of absent routes; modifications and removals are of present ones, removals of exactly what is
      there. */
  predicate Legal(view: View, u: RouteUpdate) {
    match u.kind
    case Add => KeyOf(u.route) !in view
    case Modify => KeyOf(u.route) in view
    case Remove => KeyOf(u.route) in view && view[KeyOf(u.route)] == u.route
  }

  function Replay(view: View, log: seq<RouteUpdate>): View {
    if log == [] then view else Apply(Replay(view, log[..|log| - 1]), log[|log| - 1])
  }

  predicate LegalLog(view: View, log: seq<RouteUpdate>) {
    log == [] || (LegalLog(view, log[..|log| - 1]) && Legal(Replay(view, log[..|log| - 1]), log[|log| - 1]))
  }

  lemma ReplaySnoc(view: View, log: seq<RouteUpdate>, u: RouteUpdate)
    ensures Replay(view, log + [u]) == Apply(Replay(view, log), u)
    ensures LegalLog(view, log + [u]) <==> LegalLog(view, log) && Legal(Replay(view, log), u)
  {
    assert (log + [u])[..|log|] == log;
  }

  /** Replaying a log is replaying its end over the table as it stood before. */
  lemma {:induction false} ReplaySplit(view: View, log: seq<RouteUpdate>, n: nat)
    requires n <= |log| && LegalLog(view, log)
    ensures Replay(Replay(view, log[..n]), log[n..]) == Replay(view, log)
    ensures LegalLog(Replay(view, log[..n]), log[n..])
    decreases |log|
  {
    if n == |log| {
      assert log[..n] == log;
    } else {
      var init := log[..|log| - 1];
      ReplaySplit(view, init, n);
      assert init[..n] == log[..n];
      assert log[n..] == init[n..] + [log[|log| - 1]];
      ReplaySnoc(Replay(view, log[..n]), init[n..], log[|log| - 1]);
    }
  }

  predicate Subsequence(s: seq<RouteUpdate>, t: seq<RouteUpdate>) {
    if s == [] then true
    else if t == [] then false
    else (s[|s| - 1] == t[|t| - 1] && Subsequence(s[..|s| - 1], t[..|t| - 1])) || Subsequence(s, t[..|t| - 1])
  }

  lemma SubsequenceSnoc(s: seq<RouteUpdate>, t: seq<RouteUpdate>, u: RouteUpdate)
    requires Subsequence(s, t)
    ensures Subsequence(s, t + [u]) && Subsequence(s + [u], t + [u])
  {
    assert (t + [u])[..|t|] == t && (s + [u])[..|s|] == s;
  }

  // ---------------------------------------------------------------- channels

  const CHANNEL_CAPACITY := 64

  type ChannelId = nat

  /** A watcher's past, which no operation looks at: the table and the log position at Watch, the
      position up to which it was offered updates, those the channel accepted, those taken off it,
      and how many offers found it full. */
  datatype Past = Past(start: View, from: nat, until: nat, accepted: seq<RouteUpdate>, received: seq<RouteUpdate>,
      dropped: nat)

  datatype Channel = Channel(buffer: seq<RouteUpdate>, closed: bool)

  /** The non-blocking send. Sending on a closed channel would panic. */
  function Send(ch: Channel, u: RouteUpdate): Channel
    requires !ch.closed
  {
    if |ch.buffer| < CHANNEL_CAPACITY then ch.(buffer := ch.buffer + [u]) else ch
  }

  function Offered(ch: Channel, p: Past, u: RouteUpdate): Past {
    var p' := p.(until := p.until + 1);
    if |ch.buffer| < CHANNEL_CAPACITY then p'.(accepted := p'.accepted + [u]) else p'.(dropped := p'.dropped + 1)
  }

  /** The receive of the oldest update. */
  function Take(ch: Channel): Channel
    requires ch.buffer != []
  {
    ch.(buffer := ch.buffer[1..])
  }

  function Taken(ch: Channel, p: Past): Past
    requires ch.buffer != []
  {
    p.(received := p.received + [ch.buffer[0]])
  }

  /** An offer is taken if fewer than 64 updates are waiting, and otherwise dropped. */
  lemma OfferIsTakenIff(ch: Channel, p: Past, u: RouteUpdate)
    requires !ch.closed
    ensures |ch.buffer| < 64 ==>
              && Send(ch, u) == ch.(buffer := ch.buffer + [u])
              && Offered(ch, p, u) == p.(until := p.until + 1, accepted := p.accepted + [u])
    ensures |ch.buffer| >= 64 ==>
              Send(ch, u) == ch && Offered(ch, p, u) == p.(until := p.until + 1, dropped := p.dropped + 1)
  {}

  /** What was received and what is buffered is what was accepted, in order. */
  predicate BufferOk(ch: Channel, p: Past) {
    |ch.buffer| <= 64 && p.received + ch.buffer == p.accepted
  }

  /** What was accepted is a subsequence of what was offered: all of it if nothing was dropped, and the first 64
      updates in any case. */
  predicate AcceptedOk(p: Past, offered: seq<RouteUpdate>) {
    && Subsequence(p.accepted, offered)
    && (p.dropped == 0 ==> p.accepted == offered)
    && |p.accepted| + p.dropped == |offered|
    && (p.dropped > 0 ==> |p.accepted| >= 64 && p.accepted[..64] == offered[..64])
  }

  /** The channel agrees with the log. */
  ghost predicate ChannelOk(ch: Channel, p: Past, log: seq<RouteUpdate>) {
    && BufferOk(ch, p)
    && p.from <= p.until <= |log|
    && AcceptedOk(p, log[p.from..p.until])
    && p.start == Replay(map[], log[..p.from])
  }

  lemma TakeKeeps(ch: Channel, p: Past, log: seq<RouteUpdate>)
    requires ChannelOk(ch, p, log) && ch.buffer != []
    ensures ChannelOk(Take(ch), Taken(ch, p), log)
  {
    hide Subsequence, Replay;
    assert ch.buffer == [ch.buffer[0]] + ch.buffer[1..];
  }

  lemma OfferKeepsAccepted(p: Past, offered: seq<RouteUpdate>, u: RouteUpdate)
    requires AcceptedOk(p, offered)
    ensures AcceptedOk(p.(until := p.until + 1, accepted := p.accepted + [u]), offered + [u])
    ensures |p.accepted| >= 64 ==>
              AcceptedOk(p.(until := p.until + 1, dropped := p.dropped + 1), offered + [u])
  {
    SubsequenceSnoc(p.accepted, offered, u);
  }

  lemma SendKeeps(ch: Channel, p: Past, log: seq<RouteUpdate>, u: RouteUpdate)
    requires ChannelOk(ch, p, log) && !ch.closed && p.until < |log| && log[p.until] == u
    ensures ChannelOk(Send(ch, u), Offered(ch, p, u), log)
  {
    hide Subsequence, Replay, AcceptedOk, Send, Offered;
    OfferIsTakenIff(ch, p, u);
    assert log[p.from..p.until + 1] == log[p.from..p.until] + [u];
    assert p.received + (ch.buffer + [u]) == (p.received + ch.buffer) + [u];
    OfferKeepsAccepted(p, log[p.from..p.until], u);
  }

  lemma LongerLogKeeps(ch: Channel, p: Past, log: seq<RouteUpdate>, u: RouteUpdate)
    requires ChannelOk(ch, p, log)
    ensures ChannelOk(ch, p, log + [u])
  {
    hide Subsequence, Replay;
    assert (log + [u])[p.from..p.until] == log[p.from..p.until];
    assert (log + [u])[..p.from] == log[..p.from];
  }

  // ---------------------------------------------------------------- the table

  /** Each list holds routes of its own target only, one per source and protocol, and the lists
      together are the view. */
  ghost predicate TableMatches(routes: map<string, seq<RouteEntry>>, view: View) {
    && (forall t | t in routes :: ListOk(routes[t], t))
    && (forall t, i | t in routes && 0 <= i < |routes[t]| ::
        KeyOf(routes[t][i]) in view && view[KeyOf(routes[t][i])] == routes[t][i])
    && (forall k | k in view :: k.target in routes && view[k] in routes[k.target] && KeyOf(view[k]) == k)
  }

  ghost predicate ListOk(list: seq<RouteEntry>, target: string) {
    && list != []
    && (forall i | 0 <= i < |list| :: list[i].target == target)
    && (forall i, j | 0 <= i < j < |list| :: KeyOf(list[i]) != KeyOf(list[j]))
  }

  /** A target's list with a route put in: in the place of the route it supersedes, or at the end. */
  function Placed(list: seq<RouteEntry>, e: RouteEntry): seq<RouteEntry> {
    if list == [] then [e]
    else if list[0].source == e.source && list[0].protocol == e.protocol then [e] + list[1..]
    else [list[0]] + Placed(list[1..], e)
  }

  lemma {:induction false} PlacedAt(list: seq<RouteEntry>, e: RouteEntry, i: nat)
    requires i <= |list|
    requires forall k | 0 <= k < i :: !(list[k].source == e.source && list[k].protocol == e.protocol)
    requires i < |list| ==> list[i].source == e.source && list[i].protocol == e.protocol
    ensures Placed(list, e) == if i < |list| then list[i := e] else list + [e]
  {
    if i > 0 {
      PlacedAt(list[1..], e, i - 1);
    }
  }

  lemma ListAppended(list: seq<RouteEntry>, e: RouteEntry)
    requires list == [] || ListOk(list, e.target)
    requires forall i | 0 <= i < |list| :: KeyOf(list[i]) != KeyOf(e)
    ensures ListOk(list + [e], e.target)
  {}

  lemma AppendKeepsTable(routes: map<string, seq<RouteEntry>>, view: View, e: RouteEntry)
    requires TableMatches(routes, view)
    requires KeyOf(e) !in view
    ensures TableMatches(routes[e.target := (if e.target in routes then routes[e.target] else []) + [e]],
        view[KeyOf(e) := e])
  {
    var list := if e.target in routes then routes[e.target] else [];
    var routes', view' := routes[e.target := list + [e]], view[KeyOf(e) := e];
    assert forall i | 0 <= i < |list| :: KeyOf(list[i]) in view && view[KeyOf(list[i])] == list[i];
    ListAppended(list, e);
    hide ListOk;
    forall t, i | t in routes' && 0 <= i < |routes'[t]|
      ensures KeyOf(routes'[t][i]) in view' && view'[KeyOf(routes'[t][i])] == routes'[t][i]
    {
      if t == e.target && i < |list| {
        assert routes'[t][i] == list[i];
      }
    }
    forall k | k in view'
      ensures k.target in routes' && view'[k] in routes'[k.target] && KeyOf(view'[k]) == k
    {
      if k == KeyOf(e) {
        assert (list + [e])[|list|] == e;
      } else if k.target == e.target {
        assert view[k] in list;
      }
    }
  }

  /** A route found by no entry of its target's list is not in the view. */
  lemma NotThere(routes: map<string, seq<RouteEntry>>, view: View, e: RouteEntry)
    requires TableMatches(routes, view)
    requires e.target in routes ==> forall i | 0 <= i < |routes[e.target]| ::
               !(routes[e.target][i].source == e.source && routes[e.target][i].protocol == e.protocol)
    ensures KeyOf(e) !in view
  {}

  lemma Applied(view: View, u: RouteUpdate)
    requires !u.kind.Remove?
    ensures Apply(view, u) == view[KeyOf(u.route) := u.route]
  {}

  lemma ReplaceKeepsTable(routes: map<string, seq<RouteEntry>>, view: View, e: RouteEntry, i: nat)
    requires TableMatches(routes, view) && e.target in routes
    requires i < |routes[e.target]| && routes[e.target][i].source == e.source
        && routes[e.target][i].protocol == e.protocol
    ensures KeyOf(e) in view
    ensures TableMatches(routes[e.target := routes[e.target][i := e]], view[KeyOf(e) := e])
  {
    var list := routes[e.target];
    var routes', view' := routes[e.target := list[i := e]], view[KeyOf(e) := e];
    forall k | k in view'
      ensures k.target in routes' && view'[k] in routes'[k.target] && KeyOf(view'[k]) == k
    {
      if k == KeyOf(e) {
        assert list[i := e][i] == e;
      } else if k.target == e.target {
        var j :| 0 <= j < |list| && list[j] == view[k];
        assert list[i := e][j] == view[k];
      }
    }
  }

  type Channels = map<ChannelId, Channel>

  type Pasts = map<ChannelId, Past>

  /** Every channel ever made, open or closed, agrees with the log. */
  ghost predicate ChannelsOk(channels: Channels, pasts: Pasts, log: seq<RouteUpdate>) {
    channels.Keys == pasts.Keys && forall id | id in channels :: ChannelOk(channels[id], pasts[id], log)
  }

  predicate Distinct(watchers: seq<ChannelId>) {
    forall i, j | 0 <= i < j < |watchers| :: watchers[i] != watchers[j]
  }

  /** The watcher's channel is open and has been offered everything up to the position. */
  predicate OpenAt(channels: Channels, pasts: Pasts, w: ChannelId, position: int) {
    w in channels && w in pasts && !channels[w].closed && pasts[w].until == position
  }

  ghost predicate WatchersOk(watchers: seq<ChannelId>, channels: Channels, pasts: Pasts, log: seq<RouteUpdate>) {
    Distinct(watchers) && forall k | 0 <= k < |watchers| :: OpenAt(channels, pasts, watchers[k], |log|)
  }

  /** The same channels are open, watching from where they did. */
  ghost predicate SameWatching(channels: Channels, pasts: Pasts, channels': Channels, pasts': Pasts) {
    && channels.Keys == channels'.Keys && pasts.Keys == pasts'.Keys
    && (forall x | x in channels :: channels'[x].closed == channels[x].closed)
    && (forall x | x in pasts :: pasts'[x].from == pasts[x].from && pasts'[x].start == pasts[x].start)
  }

  /** Moreover nothing was offered: at most, watchers took updates. */
  ghost predicate OnlyTaken(channels: Channels, pasts: Pasts, channels': Channels, pasts': Pasts) {
    && SameWatching(channels, pasts, channels', pasts')
    && forall x | x in pasts :: pasts'[x].until == pasts[x].until
  }

  /** The first i watchers have been offered the update at position n - 1, the others everything before it. */
  ghost predicate Midway(watchers: seq<ChannelId>, channels: Channels, pasts: Pasts, i: int, n: int) {
    forall k | 0 <= k < |watchers| :: OpenAt(channels, pasts, watchers[k], if k < i then n else n - 1)
  }

  lemma TakingStaysMidway(watchers: seq<ChannelId>, channels: Channels, pasts: Pasts, channels': Channels,
      pasts': Pasts, i: int, n: int)
    requires Midway(watchers, channels, pasts, i, n) && OnlyTaken(channels, pasts, channels', pasts')
    ensures Midway(watchers, channels', pasts', i, n)
  {}

  lemma OfferingMovesOn(watchers: seq<ChannelId>, channels: Channels, pasts: Pasts, i: nat, n: int, u: RouteUpdate)
    requires Distinct(watchers) && i < |watchers| && Midway(watchers, channels, pasts, i, n)
    ensures var w := watchers[i];
      && OpenAt(channels, pasts, w, n - 1)
      && Midway(watchers, channels[w := Send(channels[w], u)], pasts[w := Offered(channels[w], pasts[w], u)], i + 1, n)
      && SameWatching(channels, pasts, channels[w := Send(channels[w], u)],
          pasts[w := Offered(channels[w], pasts[w], u)])
  {
    assert OpenAt(channels, pasts, watchers[i], n - 1);
  }

  lemma OfferKeepsChannels(channels: Channels, pasts: Pasts, log: seq<RouteUpdate>, w: ChannelId, u: RouteUpdate)
    requires ChannelsOk(channels, pasts, log) && log != [] && log[|log| - 1] == u
        && OpenAt(channels, pasts, w, |log| - 1)
    ensures ChannelsOk(channels[w := Send(channels[w], u)], pasts[w := Offered(channels[w], pasts[w], u)], log)
  {
    hide ChannelOk;
    SendKeeps(channels[w], pasts[w], log, u);
  }

  lemma WatchingItself(channels: Channels, pasts: Pasts)
    ensures SameWatching(channels, pasts, channels, pasts)
  {}

  lemma TakingKeepsWatching(channels: Channels, pasts: Pasts, channels': Channels, pasts': Pasts)
    requires OnlyTaken(channels, pasts, channels', pasts')
    ensures SameWatching(channels, pasts, channels', pasts')
  {}

  lemma NoneOffered(watchers: seq<ChannelId>, channels: Channels, pasts: Pasts, log: seq<RouteUpdate>)
    requires log != [] && WatchersOk(watchers, channels, pasts, log[..|log| - 1])
    ensures Distinct(watchers) && Midway(watchers, channels, pasts, 0, |log|)
  {
    assert |log[..|log| - 1]| == |log| - 1;
  }

  lemma AllOffered(watchers: seq<ChannelId>, channels: Channels, pasts: Pasts, log: seq<RouteUpdate>)
    requires Distinct(watchers) && Midway(watchers, channels, pasts, |watchers|, |log|)
    ensures WatchersOk(watchers, channels, pasts, log)
  {}

  lemma WatchingChain(c: Channels, p: Pasts, c': Channels, p': Pasts, c'': Channels, p'': Pasts)
    requires SameWatching(c, p, c', p') && SameWatching(c', p', c'', p'')
    ensures SameWatching(c, p, c'', p'')
  {}

  /** The ghost fields are the table as a map, every update ever sent out, and the past of every channel. */
  class Table {
    var routes: map<string, seq<RouteEntry>>
    var updatedAt: int
    var watchers: seq<ChannelId>
    var channels: Channels
    ghost var view: View
    ghost var log: seq<RouteUpdate>
    ghost var pasts: Pasts

    /** Everything but the lists. */
    ghost predicate LogOk()
      reads this
    {
      && LegalLog(map[], log) && view == Replay(map[], log)
      && ChannelsOk(channels, pasts, log)
      && WatchersOk(watchers, channels, pasts, log)
    }

    ghost predicate Valid()
      reads this
    {
      LogOk() && TableMatches(routes, view)
    }

    constructor (now: int)
      ensures Valid() && view == map[] && log == [] && watchers == [] && channels == map[]
    {
      routes := map[];
      updatedAt := now;
      watchers := [];
      channels := map[];
      view := map[];
      log := [];
      pasts := map[];
    }

    /** A watcher takes the oldest update off its channel, if there is one. */
    method Receive(id: ChannelId) returns (update: seq<RouteUpdate>)
      requires id in channels && ChannelsOk(channels, pasts, log)
      modifies this`channels, this`pasts
      ensures ChannelsOk(channels, pasts, log) && OnlyTaken(old(channels), old(pasts), channels, pasts)
      ensures var ch := old(channels)[id];
              if ch.buffer == [] then update == [] && channels == old(channels) && pasts == old(pasts)
              else update == [ch.buffer[0]] && channels == old(channels)[id := Take(ch)]
                   && pasts == old(pasts)[id := Taken(ch, old(pasts)[id])]
    {
      hide ChannelOk;
      if channels[id].buffer == [] {
        return [];
      }
      TakeKeeps(channels[id], pasts[id], log);
      update := [channels[id].buffer[0]];
      pasts := pasts[id := Taken(channels[id], pasts[id])];
      channels := channels[id := Take(channels[id])];
    }

    /** Watchers may take updates at any time, also between two sends of one locked operation. */
    method ReceiversRun()
      requires ChannelsOk(channels, pasts, log)
      modifies this`channels, this`pasts
      ensures ChannelsOk(channels, pasts, log) && OnlyTaken(old(channels), old(pasts), channels, pasts)
    {
      hide ChannelOk;
      var steps: nat := *;
      while steps > 0
        invariant ChannelsOk(channels, pasts, log) && OnlyTaken(old(channels), old(pasts), channels, pasts)
      {
        var id: ChannelId := *;
        if id in channels {
          var update := Receive(id);
        }
        steps := steps - 1;
      }
    }

    /** Offers the newest update to watcher i, after watchers may have taken some. */
    method OfferTo(i: nat, update: RouteUpdate)
      requires ChannelsOk(channels, pasts, log) && log != [] && log[|log| - 1] == update
      requires Distinct(watchers) && i < |watchers| && Midway(watchers, channels, pasts, i, |log|)
      modifies this`channels, this`pasts
      ensures ChannelsOk(channels, pasts, log) && Midway(watchers, channels, pasts, i + 1, |log|)
      ensures SameWatching(old(channels), old(pasts), channels, pasts)
    {
      hide ChannelsOk, OnlyTaken, SameWatching, Midway, Distinct, Send, Offered;
      ReceiversRun();
      ghost var c, p := channels, pasts;
      TakingStaysMidway(watchers, old(channels), old(pasts), c, p, i, |log|);
      TakingKeepsWatching(old(channels), old(pasts), c, p);
      OfferingMovesOn(watchers, c, p, i, |log|, update);
      var w := watchers[i];
      OfferKeepsChannels(c, p, log, w, update);
      pasts := pasts[w := Offered(channels[w], pasts[w], update)];
      channels := channels[w := Send(channels[w], update)];
      WatchingChain(old(channels), old(pasts), c, p, channels, pasts);
    }

    /** Offers the newest update to every watcher without waiting. No send meets a closed channel. */
    method OfferAll(update: RouteUpdate)
      requires ChannelsOk(channels, pasts, log) && log != [] && log[|log| - 1] == update
      requires WatchersOk(watchers, channels, pasts, log[..|log| - 1])
      modifies this`channels, this`pasts
      ensures ChannelsOk(channels, pasts, log) && WatchersOk(watchers, channels, pasts, log)
      ensures SameWatching(old(channels), old(pasts), channels, pasts)
    {
      hide ChannelsOk, SameWatching, WatchersOk, Midway, Distinct;
      NoneOffered(watchers, channels, pasts, log);
      WatchingItself(channels, pasts);
      var i := 0;
      while i < |watchers|
        invariant 0 <= i <= |watchers| && Midway(watchers, channels, pasts, i, |log|)
        invariant ChannelsOk(channels, pasts, log) && SameWatching(old(channels), old(pasts), channels, pasts)
      {
        ghost var c, p := channels, pasts;
        OfferTo(i, update);
        WatchingChain(old(channels), old(pasts), c, p, channels, pasts);
        i := i + 1;
      }
      AllOffered(watchers, channels, pasts, log);
    }

    method Notify(update: RouteUpdate)
      requires LogOk() && Legal(view, update)
      modifies this`channels, this`pasts, this`view, this`log
      ensures LogOk()
      ensures view == Apply(old(view), update) && log == old(log) + [update]
      ensures SameWatching(old(channels), old(pasts), channels, pasts)
    {
      hide ChannelOk;
      ReplaySnoc(map[], log, update);
      forall id | id in channels {
        LongerLogKeeps(channels[id], pasts[id], log, update);
      }
      assert (log + [update])[..|log|] == log;
      log := log + [update];
      view := Apply(view, update);
      OfferAll(update);
    }

    /** Adds a route, or replaces the one from the same source over the same protocol. */
    method AddRoute(entry: RouteEntry, now: int)
      requires Valid()
      modifies this
      ensures Valid() && watchers == old(watchers) && SameWatching(old(channels), old(pasts), channels, pasts)
      ensures var e := entry.(updatedAt := now);
              var kind := if KeyOf(e) in old(view) then Modify else Add;
              && view == old(view)[KeyOf(e) := e]
              && log == old(log) + [RouteUpdate(kind, e, now)]
              && updatedAt == now
      ensures var list := if entry.target in old(routes) then old(routes)[entry.target] else [];
              routes == old(routes)[entry.target := Placed(list, entry.(updatedAt := now))]
    {
      hide ChannelsOk, WatchersOk, TableMatches, Replay, LegalLog, Apply;
      var e := entry.(updatedAt := now);
      var list := if e.target in routes then routes[e.target] else [];
      var i := 0;
      while i < |list|
        invariant 0 <= i <= |list|
        invariant forall k | 0 <= k < i :: !(list[k].source == e.source && list[k].protocol == e.protocol)
      {
        if list[i].source == e.source && list[i].protocol == e.protocol {
          PlacedAt(list, e, i);
          ReplaceKeepsTable(routes, view, e, i);
          Applied(view, RouteUpdate(Modify, e, now));
          routes := routes[e.target := list[i := e]];
          updatedAt := now;
          Notify(RouteUpdate(Modify, e, now));
          return;
        }
        i := i + 1;
      }
      PlacedAt(list, e, |list|);
      NotThere(routes, view, e);
      AppendKeepsTable(routes, view, e);
      Applied(view, RouteUpdate(Add, e, now));
      routes := routes[e.target := list + [e]];
      updatedAt := now;
      Notify(RouteUpdate(Add, e, now));
    }

    /** Removes all routes of a target and reports each, in the order of its list. */
    method RemoveRoute(target: string, now: int)
      requires Valid()
      modifies this
      ensures Valid() && watchers == old(watchers) && SameWatching(old(channels), old(pasts), channels, pasts)
      ensures routes == old(routes) - {target}
      ensures updatedAt == if target in old(routes) then now else old(updatedAt)
      ensures view == map k | k in old(view) && k.target != target :: old(view)[k]
      ensures log == old(log) + Removals(if target in old(routes) then old(routes)[target] else [], now)
    {
      hide ChannelsOk, WatchersOk, TableMatches, Replay, LegalLog, Apply, Without, Removals;
      NothingWithout(view, target, now);
      if target !in routes {
        NoRoutesNoKeys(routes, view, target);
        return;
      }
      var list := routes[target];
      routes := routes - {target};
      updatedAt := now;
      var i := 0;
      while i < |list|
        invariant 0 <= i <= |list|
        invariant LogOk() && watchers == old(watchers) && SameWatching(old(channels), old(pasts), channels, pasts)
        invariant routes == old(routes) - {target} && updatedAt == now
        invariant view == Without(old(view), list[..i])
        invariant log == old(log) + Removals(list[..i], now)
      {
        StillThere(old(routes), old(view), target, i, now);
        RemovalsSnoc(list[..i], list[i], now);
        assert list[..i + 1] == list[..i] + [list[i]];
        Notify(RouteUpdate(Remove, list[i], now));
        i := i + 1;
      }
      assert list[..i] == list;
      RemovalKeepsTable(old(routes), old(view), target);
    }

    /** A copy of the routes of a target: all of them, and no other, one for each source and protocol. */
    method GetRoutes(target: string) returns (result: seq<RouteEntry>)
      ensures result == if target in routes then routes[target] else []
      ensures Valid() ==> forall e :: e in result <==> e.target == target && KeyOf(e) in view && view[KeyOf(e)] == e
      ensures Valid() ==> forall i, j | 0 <= i < j < |result| :: KeyOf(result[i]) != KeyOf(result[j])
    {
      hide ChannelsOk, WatchersOk, LegalLog, Replay;
      result := if target in routes then routes[target] else [];
    }

    /** Registers a watcher on a new channel. */
    method Watch(id: ChannelId)
      requires Valid() && id !in channels
      modifies this`watchers, this`channels, this`pasts
      ensures Valid()
      ensures watchers == old(watchers) + [id]
      ensures channels == old(channels)[id := Channel([], false)]
      ensures pasts == old(pasts)[id := Past(view, |log|, |log|, [], [], 0)]
    {
      hide ChannelOk;
      NewChannelOk(log);
      channels := channels[id := Channel([], false)];
      pasts := pasts[id := Past(view, |log|, |log|, [], [], 0)];
      watchers := watchers + [id];
    }

    /** Takes a watcher off the list and closes its channel. An unknown channel changes nothing. */
    method Unwatch(id: ChannelId)
      requires Valid()
      modifies this`watchers, this`channels
      ensures Valid()
      ensures id !in watchers
      ensures id !in old(watchers) ==> watchers == old(watchers) && channels == old(channels)
      ensures id in old(watchers) ==>
                && id in old(channels) && !old(channels)[id].closed
                && channels == old(channels)[id := old(channels)[id].(closed := true)]
                && exists i ::
                     && 0 <= i < |old(watchers)| && old(watchers)[i] == id
                     && watchers == old(watchers)[..i] + old(watchers)[i + 1..]
    {
      hide ChannelOk;
      var i := 0;
      while i < |watchers|
        invariant 0 <= i <= |watchers| && id !in watchers[..i]
        invariant Valid() && watchers == old(watchers) && channels == old(channels)
      {
        if watchers[i] == id {
          ClosedStaysOk(channels[id], pasts[id], log);
          channels := channels[id := channels[id].(closed := true)];
          watchers := watchers[..i] + watchers[i + 1..];
          assert old(watchers)[i] == id;
          return;
        }
        i := i + 1;
      }
    }

    /** What a watcher can rely on, at any time: replaying every update since Watch over the table as
        it stood then gives the table now, each update legal where it applies; and what it has
        received and has waiting is a subsequence of these, all but the dropped ones. Of the first 64 updates none is
        ever dropped. */
    lemma WatcherSeesChanges(id: ChannelId)
      requires Valid() && id in watchers
      ensures id in channels && id in pasts && !channels[id].closed && pasts[id].from <= |log|
      ensures var p := pasts[id];
        && Replay(p.start, log[p.from..]) == view
        && LegalLog(p.start, log[p.from..])
        && Subsequence(p.received + channels[id].buffer, log[p.from..])
        && |p.received + channels[id].buffer| + p.dropped == |log| - p.from
        && (p.dropped == 0 || |log| - p.from <= 64 ==> p.received + channels[id].buffer == log[p.from..])
        && (|log| - p.from > 64 ==>
              |p.received + channels[id].buffer| >= 64
              && (p.received + channels[id].buffer)[..64] == log[p.from..p.from + 64])
    {
      var p := pasts[id];
      assert ChannelOk(channels[id], p, log);
      hide TableMatches, LegalLog, Replay, Subsequence;
      ReplaySplit(map[], log, p.from);
      NothingMissed(channels[id], p, log);
    }
  }

  /** What a watcher that was offered everything has received or has waiting. */
  lemma NothingMissed(ch: Channel, p: Past, log: seq<RouteUpdate>)
    requires ChannelOk(ch, p, log) && p.until == |log|
    ensures var got := p.received + ch.buffer;
      && Subsequence(got, log[p.from..])
      && |got| + p.dropped == |log| - p.from
      && (p.dropped == 0 || |log| - p.from <= 64 ==> got == log[p.from..])
      && (|log| - p.from > 64 ==> |got| >= 64 && got[..64] == log[p.from..p.from + 64])
  {
    hide Subsequence, Replay;
    var offered := log[p.from..];
    assert log[p.from..p.until] == offered;
    if |offered| > 64 {
      assert offered[..64] == log[p.from..p.from + 64];
      assert p.accepted[..64] == offered[..64];
    }
  }

  function Removals(list: seq<RouteEntry>, now: int): seq<RouteUpdate> {
    seq(|list|, i requires 0 <= i < |list| => RouteUpdate(Remove, list[i], now))
  }

  ghost function Without(view: View, list: seq<RouteEntry>): View {
    map k | k in view && (forall e | e in list :: KeyOf(e) != k) :: view[k]
  }

  lemma NothingWithout(view: View, target: string, now: int)
    ensures Without(view, []) == view && Removals([], now) == []
  {}

  lemma RemovalsSnoc(list: seq<RouteEntry>, e: RouteEntry, now: int)
    ensures Removals(list + [e], now) == Removals(list, now) + [RouteUpdate(Remove, e, now)]
  {}

  lemma NoRoutesNoKeys(routes: map<string, seq<RouteEntry>>, view: View, target: string)
    requires TableMatches(routes, view) && target !in routes
    ensures routes == routes - {target}
    ensures view == map k | k in view && k.target != target :: view[k]
  {}

  lemma StillThere(routes: map<string, seq<RouteEntry>>, view: View, target: string, i: nat, now: int)
    requires TableMatches(routes, view) && target in routes && i < |routes[target]|
    ensures var e := routes[target][i];
            var before := Without(view, routes[target][..i]);
            && Legal(before, RouteUpdate(Remove, e, now))
            && Apply(before, RouteUpdate(Remove, e, now)) == Without(view, routes[target][..i] + [e])
  {
    var list := routes[target];
    forall e | e in list[..i]
      ensures KeyOf(e) != KeyOf(list[i])
    {
      var j :| 0 <= j < i && list[j] == e;
    }
  }

  lemma RemovalKeepsTable(routes: map<string, seq<RouteEntry>>, view: View, target: string)
    requires TableMatches(routes, view) && target in routes
    ensures TableMatches(routes - {target}, Without(view, routes[target]))
    ensures Without(view, routes[target]) == map k | k in view && k.target != target :: view[k]
  {
    forall k | k in view
      ensures (forall e | e in routes[target] :: KeyOf(e) != k) <==> k.target != target
    {
      if k.target == target {
        assert view[k] in routes[target];
      }
    }
  }

  lemma NewChannelOk(log: seq<RouteUpdate>)
    ensures ChannelOk(Channel([], false), Past(Replay(map[], log), |log|, |log|, [], [], 0), log)
  {
    assert log[..|log|] == log;
  }

  lemma ClosedStaysOk(ch: Channel, p: Past, log: seq<RouteUpdate>)
    requires ChannelOk(ch, p, log)
    ensures ChannelOk(ch.(closed := true), p, log)
  {}
}
