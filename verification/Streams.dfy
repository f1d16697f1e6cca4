/** Streams of response chunks: what producers put on the channel and what the collecting loops take off it. */
module Streams {

  /** Go's error value. */
  datatype Err = Nil | Err(message: string)

  datatype Chunk = Chunk(data: string, error: Err, done: bool)

  predicate Terminal(c: Chunk) {
    c.error.Err? || c.done
  }

  /** The channel discipline: chunks that do not end the stream, then exactly one that does. */
  predicate Disciplined(chunks: seq<Chunk>) {
    && |chunks| > 0
    && Terminal(chunks[|chunks| - 1])
    && forall i | 0 <= i < |chunks| - 1 :: !Terminal(chunks[i])
  }

  lemma DisciplinedCons(c: Chunk, rest: seq<Chunk>)
    requires !Terminal(c) && Disciplined(rest)
    ensures Disciplined([c] + rest)
  {}

  // ---------------------------------------------------------------- what a loop takes

  /** The error text (empty for none), the text collected, and how many chunks were taken. */
  datatype Collected = Collected(failure: string, body: string, taken: nat)

  function Collect(chunks: seq<Chunk>): Collected {
    if chunks == [] then Collected("", "", 0)
    else
      var c := chunks[0];
      if c.error.Err? then Collected(c.error.message, "", 1)
      else if c.done then Collected("", c.data, 1)
      else
        var rest := Collect(chunks[1..]);
        Collected(rest.failure, c.data + rest.body, rest.taken + 1)
  }

  /** The texts a streaming loop publishes on the way, given what it has already collected. */
  function Partials(acc: string, chunks: seq<Chunk>): seq<string>
    decreases |chunks|
  {
    if chunks == [] || chunks[0].error.Err? then []
    else
      var acc' := acc + chunks[0].data;
      (if chunks[0].data == "" then [] else [acc']) + if chunks[0].done then [] else Partials(acc', chunks[1..])
  }

  function AllData(chunks: seq<Chunk>): string {
    if chunks == [] then "" else chunks[0].data + AllData(chunks[1..])
  }

  /** On a disciplined stream a loop takes every chunk: nothing is left for the producer to block on. */
  lemma {:induction false} CollectDrains(chunks: seq<Chunk>)
    requires Disciplined(chunks)
    ensures Collect(chunks).taken == |chunks|
  {
    if |chunks| > 1 {
      assert !Terminal(chunks[0]);
      CollectDrains(chunks[1..]);
    }
  }

  /** It reports the error of the last chunk, and without one its body is all the data of the stream. */
  lemma {:induction false} CollectMeaning(chunks: seq<Chunk>)
    requires Disciplined(chunks)
    ensures var last := chunks[|chunks| - 1];
            if last.error.Err?
            then Collect(chunks).failure == last.error.message
              && Collect(chunks).body == AllData(chunks[..|chunks| - 1])
            else Collect(chunks).failure == "" && Collect(chunks).body == AllData(chunks)
  {
    if |chunks| > 1 {
      var rest := chunks[1..];
      assert !Terminal(chunks[0]);
      CollectMeaning(rest);
      assert chunks[..|chunks| - 1][1..] == rest[..|rest| - 1];
      assert rest[|rest| - 1] == chunks[|chunks| - 1];
    } else {
      assert AllData(chunks[1..]) == "";
      assert chunks[0].data + "" == chunks[0].data;
    }
  }

  /** Chunk e is the first that ends the stream, or there is none and e is their number. */
  predicate EndsAt(chunks: seq<Chunk>, e: nat) {
    e <= |chunks| && (e < |chunks| ==> Terminal(chunks[e])) && forall i | 0 <= i < e :: !Terminal(chunks[i])
  }

  lemma EndsAtRest(chunks: seq<Chunk>, e: nat)
    requires EndsAt(chunks, e) && e > 0
    ensures EndsAt(chunks[1..], e - 1) && !chunks[0].error.Err? && !chunks[0].done
    ensures forall j | 0 < j <= |chunks| :: chunks[..j][1..] == chunks[1..][..j - 1]
  {
    assert !Terminal(chunks[0]);
  }

  /** What a loop collects from any stream, disciplined or not. */
  lemma {:induction false} CollectAt(chunks: seq<Chunk>, e: nat)
    requires EndsAt(chunks, e)
    ensures Collect(chunks) ==
        if e == |chunks| then Collected("", AllData(chunks), e)
        else if chunks[e].error.Err? then Collected(chunks[e].error.message, AllData(chunks[..e]), e + 1)
        else Collected("", AllData(chunks[..e + 1]), e + 1)
    decreases e
  {
    if e > 0 {
      EndsAtRest(chunks, e);
      CollectAt(chunks[1..], e - 1);
      assert chunks[..|chunks|] == chunks;
    } else if chunks != [] {
      assert chunks[..1] == [chunks[0]] && chunks[..1][1..] == [];
      assert AllData(chunks[..1]) == chunks[0].data + AllData([]);
    }
  }

  /** How many chunks have data. */
  function Shown(chunks: seq<Chunk>): nat {
    if chunks == [] then 0 else (if chunks[0].data == "" then 0 else 1) + Shown(chunks[1..])
  }

  /** The chunks a loop shows: all it takes, except one with an error. */
  function ShownUpTo(chunks: seq<Chunk>, e: nat): nat {
    if e < |chunks| && !chunks[e].error.Err? then e + 1 else e
  }

  /** Text j of a publishing loop, if chunk j has data, is all the data so far. */
  predicate PartialAt(acc: string, chunks: seq<Chunk>, p: seq<string>, j: nat)
    requires j < |chunks|
  {
    chunks[j].data != "" ==> Shown(chunks[..j]) < |p| && p[Shown(chunks[..j])] == acc + AllData(chunks[..j + 1])
  }

  lemma PartialAtFirst(acc: string, chunks: seq<Chunk>, q: seq<string>)
    requires chunks != []
    ensures PartialAt(acc, chunks, (if chunks[0].data == "" then [] else [acc + chunks[0].data]) + q, 0)
  {
    FirstData(chunks, 0);
  }

  lemma PartialAtNext(acc: string, chunks: seq<Chunk>, q: seq<string>, j: nat)
    requires 0 < j < |chunks| && PartialAt(acc + chunks[0].data, chunks[1..], q, j - 1)
    ensures PartialAt(acc, chunks, (if chunks[0].data == "" then [] else [acc + chunks[0].data]) + q, j)
  {
    var c, rest := chunks[0], chunks[1..];
    FirstData(chunks, j);
    hide AllData, Shown;
    assert rest[j - 1] == chunks[j];
    assert acc + (c.data + AllData(rest[..j])) == (acc + c.data) + AllData(rest[..j]);
  }

  lemma {:induction false} PartialsCount(acc: string, chunks: seq<Chunk>, e: nat)
    requires EndsAt(chunks, e)
    ensures |Partials(acc, chunks)| == Shown(chunks[..ShownUpTo(chunks, e)])
    decreases e
  {
    var n := ShownUpTo(chunks, e);
    if n > 0 {
      FirstShown(chunks, n);
      if e > 0 {
        EndsAtRest(chunks, e);
        PartialsCount(acc + chunks[0].data, chunks[1..], e - 1);
      }
    }
  }

  lemma {:induction false} PartialsPlace(acc: string, chunks: seq<Chunk>, e: nat, j: nat)
    requires EndsAt(chunks, e) && j < ShownUpTo(chunks, e)
    ensures PartialAt(acc, chunks, Partials(acc, chunks), j)
    decreases j
  {
    var c, rest := chunks[0], chunks[1..];
    hide PartialAt, AllData, Shown;
    if e > 0 {
      EndsAtRest(chunks, e);
      assert Partials(acc, chunks) == (if c.data == "" then [] else [acc + c.data]) + Partials(acc + c.data, rest);
      if j > 0 {
        PartialsPlace(acc + c.data, rest, e - 1, j - 1);
        PartialAtNext(acc, chunks, Partials(acc + c.data, rest), j);
      } else {
        PartialAtFirst(acc, chunks, Partials(acc + c.data, rest));
      }
    } else {
      PartialAtFirst(acc, chunks, []);
    }
  }

  /** A publishing loop publishes one text for every chunk with data, each time all the data so far. */
  lemma PartialsAre(chunks: seq<Chunk>, e: nat)
    requires EndsAt(chunks, e)
    ensures var p, n := Partials("", chunks), ShownUpTo(chunks, e);
      && |p| == Shown(chunks[..n])
      && forall j | 0 <= j < n && chunks[j].data != "" ::
           Shown(chunks[..j]) < |p| && p[Shown(chunks[..j])] == AllData(chunks[..j + 1])
  {
    PartialsCount("", chunks, e);
    forall j | 0 <= j < ShownUpTo(chunks, e) && chunks[j].data != ""
      ensures Shown(chunks[..j]) < |Partials("", chunks)|
      ensures Partials("", chunks)[Shown(chunks[..j])] == AllData(chunks[..j + 1])
    {
      PartialsPlace("", chunks, e, j);
      assert "" + AllData(chunks[..j + 1]) == AllData(chunks[..j + 1]);
    }
  }

  lemma FirstShown(chunks: seq<Chunk>, j: nat)
    requires 0 < j <= |chunks|
    ensures Shown(chunks[..j]) == (if chunks[0].data == "" then 0 else 1) + Shown(chunks[1..][..j - 1])
    ensures Shown(chunks[..0]) == 0
  {
    assert chunks[..j][1..] == chunks[1..][..j - 1];
  }

  lemma FirstData(chunks: seq<Chunk>, j: nat)
    requires j < |chunks|
    ensures AllData(chunks[..j + 1]) == chunks[0].data + AllData(chunks[1..][..j])
    ensures Shown(chunks[..j])
         == if j == 0 then 0 else (if chunks[0].data == "" then 0 else 1) + Shown(chunks[1..][..j - 1])
    ensures AllData([]) == "" && chunks[0].data + "" == chunks[0].data && chunks[1..][..0] == []
  {
    assert chunks[..j + 1][1..] == chunks[1..][..j];
    if j > 0 {
      FirstShown(chunks, j);
    }
  }

  /** Each text begins with `from`, is a prefix of every later one, and of `whole`. */
  ghost predicate Growing(from: string, texts: seq<string>, whole: string) {
    && (forall i, j | 0 <= i <= j < |texts| :: texts[i] <= texts[j])
    && (forall i | 0 <= i < |texts| :: from <= texts[i] <= whole)
  }

  lemma GrowingOn(from: string, next: string, texts: seq<string>, whole: string)
    requires from <= next <= whole && Growing(next, texts, whole)
    ensures Growing(from, texts, whole) && Growing(from, [next] + texts, whole)
  {
    forall i | 0 <= i < |texts| ensures from <= texts[i] {
      assert from == next[..|from|] == texts[i][..|next|][..|from|];
    }
  }

  /** Each published text is a prefix of every later one and of the final body, and the last is the body. */
  lemma {:induction false} PartialsGrow(acc: string, chunks: seq<Chunk>)
    ensures var p, whole := Partials(acc, chunks), acc + Collect(chunks).body;
            Growing(acc, p, whole) && (if p == [] then Collect(chunks).body == "" else p[|p| - 1] == whole)
    decreases |chunks|
  {
    if chunks != [] && !chunks[0].error.Err? {
      var acc', rest := acc + chunks[0].data, chunks[1..];
      var whole := acc + Collect(chunks).body;
      if !chunks[0].done {
        PartialsGrow(acc', rest);
        var q := Partials(acc', rest);
        assert acc + (chunks[0].data + Collect(rest).body) == acc' + Collect(rest).body;
        hide Growing;
        GrowingOn(acc, acc', q, whole);
        assert Partials(acc, chunks) == if chunks[0].data == "" then q else [acc'] + q;
      }
    }
  }

  /** What a loop has in hand after i chunks, and what the rest will add. */
  ghost predicate Ahead(chunks: seq<Chunk>, i: nat, body: string)
    requires i <= |chunks|
  {
    var rest := Collect(chunks[i..]);
    Collect(chunks) == Collected(rest.failure, body + rest.body, i + rest.taken)
  }

  lemma AheadStep(chunks: seq<Chunk>, i: nat, body: string)
    requires i < |chunks| && Ahead(chunks, i, body)
    ensures var c := chunks[i];
            if c.error.Err? then Collect(chunks) == Collected(c.error.message, body, i + 1)
            else if c.done then Collect(chunks) == Collected("", body + c.data, i + 1)
            else Ahead(chunks, i + 1, body + c.data)
  {
    var c := chunks[i];
    assert chunks[i..][1..] == chunks[i + 1..];
    assert body + "" == body;
    if !c.error.Err? && !c.done {
      var rest := Collect(chunks[i + 1..]);
      assert body + (c.data + rest.body) == (body + c.data) + rest.body;
    }
  }

  lemma AheadEnd(chunks: seq<Chunk>, body: string)
    requires Ahead(chunks, |chunks|, body)
    ensures Collect(chunks) == Collected("", body, |chunks|)
  {
    assert body + "" == body;
  }

  /** The texts published after i chunks, and what the rest will add. */
  ghost predicate Published(chunks: seq<Chunk>, i: nat, body: string, published: seq<string>)
    requires i <= |chunks|
  {
    Partials("", chunks) == published + Partials(body, chunks[i..])
  }

  function Publish(published: seq<string>, body: string, c: Chunk): seq<string> {
    if c.data == "" then published else published + [body + c.data]
  }

  lemma Regroup<T>(a: seq<T>, b: seq<T>, c: seq<T>)
    ensures a + (b + c) == (a + b) + c
  {}

  lemma PublishedStep(chunks: seq<Chunk>, i: nat, body: string, published: seq<string>)
    requires i < |chunks| && Published(chunks, i, body, published)
    ensures var c := chunks[i];
            if c.error.Err? then Partials("", chunks) == published
            else if c.done then Partials("", chunks) == Publish(published, body, c)
            else Published(chunks, i + 1, body + c.data, Publish(published, body, c))
  {
    var c, rest := chunks[i], chunks[i..];
    var next := chunks[i + 1..];
    assert rest[1..] == next && rest[0] == c;
    if c.error.Err? {
      assert Partials(body, rest) == [];
    } else {
      var own := if c.data == "" then [] else [body + c.data];
      var later := if c.done then [] else Partials(body + c.data, next);
      assert Partials(body, rest) == own + later;
      Regroup(published, own, later);
      assert Publish(published, body, c) == published + own;
    }
  }

  lemma PublishedEnd(chunks: seq<Chunk>, body: string, published: seq<string>)
    requires Published(chunks, |chunks|, body, published)
    ensures Partials("", chunks) == published
  {}

  // ---------------------------------------------------------------- the loops

  /** The loop of the A2A send, the synchronous and asynchronous ACP runs and the MCP tool call. */
  method CollectBody(chunks: seq<Chunk>) returns (invokeErr: string, body: string, taken: nat)
    ensures Collected(invokeErr, body, taken) == Collect(chunks)
  {
    invokeErr, body, taken := "", "", 0;
    var i := 0;
    while i < |chunks|
      invariant 0 <= i <= |chunks| && taken == i && invokeErr == ""
      invariant Ahead(chunks, i, body)
    {
      var chunk := chunks[i];
      AheadStep(chunks, i, body);
      i, taken := i + 1, taken + 1;
      if chunk.error.Err? {
        invokeErr := chunk.error.message;
        return;
      }
      assert body + "" == body;
      if chunk.data != "" {
        body := body + chunk.data;
      }
      if chunk.done {
        return;
      }
    }
    AheadEnd(chunks, body);
  }

  /** The loop of the A2A subscription and the streamed ACP run; `published` are the texts of the
      snapshots it stores and sends. */
  method CollectAndPublish(chunks: seq<Chunk>)
      returns (invokeErr: string, body: string, published: seq<string>, taken: nat)
    ensures Collected(invokeErr, body, taken) == Collect(chunks)
    ensures published == Partials("", chunks)
  {
    invokeErr, body, published, taken := "", "", [], 0;
    assert [] + Partials("", chunks) == Partials("", chunks) && chunks[0..] == chunks;
    var i := 0;
    while i < |chunks|
      invariant 0 <= i <= |chunks| && taken == i && invokeErr == ""
      invariant Ahead(chunks, i, body)
      invariant Published(chunks, i, body, published)
    {
      var chunk := chunks[i];
      AheadStep(chunks, i, body);
      PublishedStep(chunks, i, body, published);
      i, taken := i + 1, taken + 1;
      if chunk.error.Err? {
        invokeErr := chunk.error.message;
        return;
      }
      assert body + "" == body;
      if chunk.data != "" {
        body := body + chunk.data;
        published := published + [body];
      }
      if chunk.done {
        return;
      }
    }
    AheadEnd(chunks, body);
    PublishedEnd(chunks, body, published);
  }

  /** An event the invoke handler sends to its client. */
  datatype ClientEvent = Message(content: string) | Failure

  function Contents(events: seq<ClientEvent>): string {
    if events == [] then ""
    else (if events[0].Message? then events[0].content else "") + Contents(events[1..])
  }

  /** One message for every chunk with data, in order, up to the first that ends the stream, and a failure for an
      error. */
  function ClientEvents(chunks: seq<Chunk>): seq<ClientEvent> {
    if chunks == [] then []
    else if chunks[0].error.Err? then [Failure]
    else
      (if chunks[0].data == "" then [] else [Message(chunks[0].data)])
      + if chunks[0].done then [] else ClientEvents(chunks[1..])
  }

  /** Together the messages are the body a collecting loop ends with. */
  lemma {:induction false} ClientEventsAreTheBody(chunks: seq<Chunk>)
    ensures Contents(ClientEvents(chunks)) == Collect(chunks).body
    ensures Collect(chunks).failure != "" ==> Failure in ClientEvents(chunks)
    decreases |chunks|
  {
    if chunks != [] && !chunks[0].error.Err? {
      var c := chunks[0];
      var later := if c.done then [] else ClientEvents(chunks[1..]);
      if !c.done {
        ClientEventsAreTheBody(chunks[1..]);
      }
      if c.data == "" {
        assert [] + later == later;
      } else {
        assert ([Message(c.data)] + later)[1..] == later;
      }
      assert c.data + Contents(later) == Collect(chunks).body;
    }
  }

  lemma {:induction false} ClientEventsCount(chunks: seq<Chunk>, e: nat)
    requires EndsAt(chunks, e)
    ensures var events, failed := ClientEvents(chunks), e < |chunks| && chunks[e].error.Err?;
      && |events| == Shown(chunks[..ShownUpTo(chunks, e)]) + (if failed then 1 else 0)
      && (failed ==> events[|events| - 1] == Failure)
    decreases e
  {
    var n := ShownUpTo(chunks, e);
    if n > 0 {
      FirstShown(chunks, n);
      var own := if chunks[0].data == "" then [] else [Message(chunks[0].data)];
      if e > 0 {
        EndsAtRest(chunks, e);
        ClientEventsCount(chunks[1..], e - 1);
        var later := ClientEvents(chunks[1..]);
        assert ClientEvents(chunks) == own + later;
        hide ClientEvents, Shown;
        assert |own + later| == |own| + |later|;
      } else {
        assert ClientEvents(chunks) == own + [];
        assert chunks[1..][..0] == [];
      }
    } else {
      assert chunks[..0] == [];
    }
  }

  lemma {:induction false} ClientEventsPlace(chunks: seq<Chunk>, e: nat, j: nat)
    requires EndsAt(chunks, e) && j < ShownUpTo(chunks, e) && chunks[j].data != ""
    ensures Shown(chunks[..j]) < |ClientEvents(chunks)|
    ensures ClientEvents(chunks)[Shown(chunks[..j])] == Message(chunks[j].data)
    decreases j
  {
    FirstData(chunks, j);
    if j > 0 {
      EndsAtRest(chunks, e);
      assert chunks[1..][j - 1] == chunks[j];
      ClientEventsPlace(chunks[1..], e - 1, j - 1);
    }
  }

  /** The client gets one message for every chunk with data, with just that data, and a failure for an error. */
  lemma ClientEventsAre(chunks: seq<Chunk>, e: nat)
    requires EndsAt(chunks, e)
    ensures var events, n := ClientEvents(chunks), ShownUpTo(chunks, e);
            var failed := e < |chunks| && chunks[e].error.Err?;
      && |events| == Shown(chunks[..n]) + (if failed then 1 else 0)
      && (failed ==> events[|events| - 1] == Failure)
      && forall j | 0 <= j < n && chunks[j].data != "" ::
           Shown(chunks[..j]) < |events| && events[Shown(chunks[..j])] == Message(chunks[j].data)
  {
    ClientEventsCount(chunks, e);
    forall j | 0 <= j < ShownUpTo(chunks, e) && chunks[j].data != ""
      ensures Shown(chunks[..j]) < |ClientEvents(chunks)|
      ensures ClientEvents(chunks)[Shown(chunks[..j])] == Message(chunks[j].data)
    {
      ClientEventsPlace(chunks, e, j);
    }
  }

  /** The events sent after i chunks, and what the rest will add. */
  ghost predicate Sent(chunks: seq<Chunk>, i: nat, events: seq<ClientEvent>)
    requires i <= |chunks|
  {
    ClientEvents(chunks) == events + ClientEvents(chunks[i..])
  }

  function Send(events: seq<ClientEvent>, c: Chunk): seq<ClientEvent> {
    if c.data == "" then events else events + [Message(c.data)]
  }

  lemma SentStep(chunks: seq<Chunk>, i: nat, events: seq<ClientEvent>)
    requires i < |chunks| && Sent(chunks, i, events)
    ensures var c := chunks[i];
            if c.error.Err? then ClientEvents(chunks) == events + [Failure]
            else if c.done then ClientEvents(chunks) == Send(events, c)
            else Sent(chunks, i + 1, Send(events, c))
  {
    var c, rest := chunks[i], chunks[i..];
    var next := chunks[i + 1..];
    assert rest[1..] == next && rest[0] == c;
    if !c.error.Err? {
      var own := if c.data == "" then [] else [Message(c.data)];
      var later := if c.done then [] else ClientEvents(next);
      assert ClientEvents(rest) == own + later;
      hide ClientEvents;
      Regroup(events, own, later);
      assert Send(events, c) == events + own;
    }
  }

  /** The loop of the streamed invocation. The body is kept only without an error. */
  method InvokeSSE(chunks: seq<Chunk>)
      returns (invokeErr: string, respBody: string, statusCode: int, events: seq<ClientEvent>, taken: nat)
    ensures invokeErr == Collect(chunks).failure && taken == Collect(chunks).taken
    ensures respBody == if invokeErr == "" then Collect(chunks).body else ""
    ensures events == ClientEvents(chunks)
    ensures statusCode == if Failure in events then 502 else 200
  {
    var body := "";
    ghost var ended := false;
    invokeErr, respBody, statusCode, events, taken := "", "", 200, [], 0;
    assert [] + ClientEvents(chunks) == ClientEvents(chunks) && chunks[0..] == chunks;
    var i := 0;
    while i < |chunks|
      invariant 0 <= i <= |chunks| && taken == i && invokeErr == "" && statusCode == 200 && Failure !in events && !ended
      invariant Ahead(chunks, i, body)
      invariant Sent(chunks, i, events)
    {
      var chunk := chunks[i];
      AheadStep(chunks, i, body);
      SentStep(chunks, i, events);
      i, taken := i + 1, taken + 1;
      if chunk.error.Err? {
        invokeErr := chunk.error.message;
        statusCode := 502;
        events := events + [Failure];
        ended := true;
        break;
      }
      assert body + "" == body;
      if chunk.data != "" {
        body := body + chunk.data;
        events := events + [Message(chunk.data)];
      }
      if chunk.done {
        ended := true;
        break;
      }
    }
    if !ended {
      AheadEnd(chunks, body);
    }
    if invokeErr == "" {
      respBody := body;
    }
  }

  // ---------------------------------------------------------------- producers

  /** The manager's fallback for a bridge that cannot stream. */
  method FallbackChunks(sendErr: Err, destination: string) returns (ch: seq<Chunk>)
    ensures Disciplined(ch)
    ensures Collect(ch) == if sendErr.Err? then Collected(sendErr.message, "", 1)
                           else Collected("", "Message delivered to agent " + destination, 1)
  {
    if sendErr.Err? {
      ch := [Chunk("", sendErr, false)];
    } else {
      ch := [Chunk("Message delivered to agent " + destination, Nil, true)];
    }
  }

  function Decimal(n: nat): string {
    (if n < 10 then "" else Decimal(n / 10)) + ["0123456789"[n % 10]]
  }

  /** The adapter's reader of a response that is not a stream. */
  method ReadBufferedResponse(body: string, readErr: Err, status: nat) returns (ch: seq<Chunk>)
    ensures Disciplined(ch)
    ensures Collect(ch).failure == "" <==> !readErr.Err? && status == 200
    ensures !readErr.Err? && status == 200 ==> Collect(ch).body == body
    ensures readErr.Err? ==> Collect(ch) == Collected("read response: " + readErr.message, "", 1)
    ensures !readErr.Err? && status != 200 ==>
        Collect(ch) == Collected("status " + Decimal(status) + ": " + body, "", 1)
  {
    if readErr.Err? {
      return [Chunk("", Err("read response: " + readErr.message), false)];
    }
    if status != 200 {
      return [Chunk("", Err("status " + Decimal(status) + ": " + body), false)];
    }
    ch := [Chunk(body, Nil, true)];
  }
}
