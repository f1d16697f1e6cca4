/** Server-sent events: the adapter's line reader and the bridges' printers.

    Characters stand for bytes. */
module Sse {
  import opened Streams

  /** The scanner's buffer: a line must fit in it together with its newline. */
  const MAX_LINE := 65536

  const EVENT := "event: "
  const DATA := "data: "

  // ---------------------------------------------------------------- lines

  predicate HasPrefix(s: string, prefix: string) {
    |prefix| <= |s| && s[..|prefix|] == prefix
  }

  function NewlineAt(s: string): (n: nat)
    ensures n <= |s| && '\n' !in s[..n] && (n < |s| ==> s[n] == '\n')
  {
    if s == [] || s[0] == '\n' then 0 else 1 + NewlineAt(s[1..])
  }

  function DropCR(line: string): string {
    if |line| > 0 && line[|line| - 1] == '\r' then line[..|line| - 1] else line
  }

  datatype Scan =
    | Line(line: string, rest: string)
    | TooLong
    | End

  /** One call of the scanner. The last line needs no newline. */
  function NextLine(s: string): (r: Scan)
    ensures r.Line? ==> |r.rest| < |s|
  {
    if s == [] then End
    else
      var n := NewlineAt(s);
      if n >= MAX_LINE then TooLong
      else Line(DropCR(s[..n]), if n < |s| then s[n + 1..] else [])
  }

  lemma {:induction false} NewlineEnds(line: string, rest: string)
    requires '\n' !in line
    ensures NewlineAt(line + "\n" + rest) == |line|
  {
    if line != "" {
      NewlineEnds(line[1..], rest);
      assert (line + "\n" + rest)[1..] == line[1..] + "\n" + rest;
    }
  }

  lemma NextLineOf(line: string, rest: string)
    requires '\n' !in line && |line| < MAX_LINE
    ensures NextLine(line + "\n" + rest) == Line(DropCR(line), rest)
  {
    var s := line + "\n" + rest;
    NewlineEnds(line, rest);
    assert s[..|line|] == line && s[|line| + 1..] == rest;
  }

  // ---------------------------------------------------------------- the reader

  function ReadError(): Chunk {
    Chunk("", Err("sse read"), false)
  }

  /** The chunks read from a body; `failed` says that reading it broke off with an error. */
  function Read(s: string, failed: bool, eventType: string): seq<Chunk>
    decreases |s|
  {
    match NextLine(s)
    case End => [if failed then ReadError() else Chunk("", Nil, true)]
    case TooLong => [ReadError()]
    case Line(line, rest) =>
      if HasPrefix(line, EVENT) then Read(rest, failed, line[|EVENT|..])
      else if HasPrefix(line, DATA) then
        var data := line[|DATA|..];
        if eventType == "error" then [Chunk(data, Err("remote error: " + data), false)]
        else if eventType == "done" || eventType == "close" then [Chunk(data, Nil, true)]
        else [Chunk(data, Nil, false)] + Read(rest, failed, "")
      else Read(rest, failed, if line == "" then "" else eventType)
  }

  lemma AppendOne(ch: seq<Chunk>, c: Chunk, rest: seq<Chunk>)
    ensures ch + ([c] + rest) == (ch + [c]) + rest
  {}

  method ReadSSEStream(body: string, failed: bool) returns (ch: seq<Chunk>)
    ensures ch == Read(body, failed, "")
  {
    ch := [];
    var rest, eventType := body, "";
    var scanned := NextLine(rest);
    while scanned.Line?
      invariant scanned == NextLine(rest)
      invariant ch + Read(rest, failed, eventType) == Read(body, failed, "")
      decreases |rest|
    {
      var line := scanned.line;
      rest := scanned.rest;
      if HasPrefix(line, EVENT) {
        eventType := line[|EVENT|..];
      } else if HasPrefix(line, DATA) {
        var data := line[|DATA|..];
        if eventType == "error" {
          ch := ch + [Chunk(data, Err("remote error: " + data), false)];
          return;
        }
        if eventType == "done" || eventType == "close" {
          ch := ch + [Chunk(data, Nil, true)];
          return;
        }
        AppendOne(ch, Chunk(data, Nil, false), Read(rest, failed, ""));
        ch := ch + [Chunk(data, Nil, false)];
        eventType := "";
      } else if line == "" {
        eventType := "";
      }
      scanned := NextLine(rest);
    }
    if scanned.TooLong? || failed {
      ch := ch + [ReadError()];
    } else {
      ch := ch + [Chunk("", Nil, true)];
    }
  }

  /** Whatever the body, even one that is no event stream, the reader keeps the channel discipline. */
  lemma {:induction false} ReaderIsDisciplined(s: string, failed: bool, eventType: string)
    ensures Disciplined(Read(s, failed, eventType))
    decreases |s|
  {
    match NextLine(s)
    case Line(line, rest) =>
      if HasPrefix(line, EVENT) {
        ReaderIsDisciplined(rest, failed, line[|EVENT|..]);
      } else if HasPrefix(line, DATA) {
        ReaderIsDisciplined(rest, failed, "");
      } else {
        ReaderIsDisciplined(rest, failed, if line == "" then "" else eventType);
      }
    case _ =>
  }

  // ---------------------------------------------------------------- the printer

  datatype Frame = Frame(event: string, data: string)

  /** What each bridge writes for one event. */
  function PrintFrame(f: Frame): string {
    EVENT + f.event + "\n" + (DATA + f.data + "\n" + ("" + "\n"))
  }

  function Print(frames: seq<Frame>): string {
    if frames == [] then "" else PrintFrame(frames[0]) + Print(frames[1..])
  }

  /** Text that survives as the rest of a line after a prefix of the given length. */
  predicate OneLine(s: string, prefix: nat) {
    '\n' !in s && (|s| > 0 ==> s[|s| - 1] != '\r') && prefix + |s| < MAX_LINE
  }

  predicate Printable(f: Frame) {
    OneLine(f.event, |EVENT|) && OneLine(f.data, |DATA|)
  }

  predicate Ends(f: Frame) {
    f.event == "error" || f.event == "done" || f.event == "close"
  }

  /** The chunk a frame turns into. */
  function ChunkOf(f: Frame): Chunk {
    Chunk(f.data,
          if f.event == "error" then Err("remote error: " + f.data) else Nil,
          f.event == "done" || f.event == "close")
  }

  /** The frames up to the first that ends the stream, or all of them and a final Done. */
  function Expected(frames: seq<Frame>): seq<Chunk> {
    if frames == [] then [Chunk("", Nil, true)]
    else if Ends(frames[0]) then [ChunkOf(frames[0])]
    else [ChunkOf(frames[0])] + Expected(frames[1..])
  }

  lemma PrefixedLine(prefix: string, s: string, rest: string)
    requires prefix == EVENT || prefix == DATA
    requires OneLine(s, |prefix|)
    ensures NextLine(prefix + s + "\n" + rest) == Line(prefix + s, rest)
    ensures HasPrefix(prefix + s, prefix) && (prefix + s)[|prefix|..] == s
    ensures HasPrefix(prefix + s, EVENT) <==> prefix == EVENT
  {
    var line := prefix + s;
    NextLineOf(line, rest);
    assert line[|line| - 1] == if |s| > 0 then s[|s| - 1] else ' ';
    assert line[0] == prefix[0];
  }

  lemma EmptyLine(rest: string)
    ensures NextLine("" + "\n" + rest) == Line("", rest)
  {
    NextLineOf("", rest);
  }

  lemma ReadEventLine(event: string, rest: string, failed: bool, eventType: string)
    requires OneLine(event, |EVENT|)
    ensures Read(EVENT + event + "\n" + rest, failed, eventType) == Read(rest, failed, event)
  {
    PrefixedLine(EVENT, event, rest);
  }

  lemma ReadDataLine(f: Frame, rest: string, failed: bool)
    requires OneLine(f.data, |DATA|)
    ensures Read(DATA + f.data + "\n" + rest, failed, f.event)
         == if Ends(f) then [ChunkOf(f)] else [ChunkOf(f)] + Read(rest, failed, "")
  {
    PrefixedLine(DATA, f.data, rest);
  }

  lemma ReadBlankLine(rest: string, failed: bool)
    ensures Read("" + "\n" + rest, failed, "") == Read(rest, failed, "")
  {
    EmptyLine(rest);
    assert !HasPrefix("", EVENT) && !HasPrefix("", DATA);
  }

  lemma ReadFrame(f: Frame, rest: string, failed: bool, eventType: string)
    requires Printable(f)
    ensures Read(PrintFrame(f) + rest, failed, eventType)
         == if Ends(f) then [ChunkOf(f)] else [ChunkOf(f)] + Read(rest, failed, "")
  {
    var afterBlank := "" + "\n" + rest;
    var afterEvent := DATA + f.data + "\n" + afterBlank;
    FrameLines(f, rest);
    ReadEventLine(f.event, afterEvent, failed, eventType);
    ReadDataLine(f, afterBlank, failed);
    ReadBlankLine(rest, failed);
  }

  lemma FrameLines(f: Frame, rest: string)
    ensures PrintFrame(f) + rest == EVENT + f.event + "\n" + (DATA + f.data + "\n" + ("" + "\n" + rest))
  {}

  /** Printing frames and reading them back gives their data in order, up to the first frame that
      ends the stream, and exactly one terminal chunk. */
  lemma {:induction false} RoundTrip(frames: seq<Frame>, eventType: string)
    requires forall f | f in frames :: Printable(f)
    ensures Read(Print(frames), false, eventType) == Expected(frames)
    decreases |frames|
  {
    if frames != [] {
      ReadFrame(frames[0], Print(frames[1..]), false, eventType);
      if !Ends(frames[0]) {
        RoundTrip(frames[1..], "");
      }
    }
  }

  /** If frame i is the first that ends the stream, exactly i + 1 chunks come out, frame by frame, the
      last one terminal; if none does, one more than there are frames, the last a bare Done. */
  lemma {:induction false} ChunkCount(frames: seq<Frame>, i: nat)
    requires i <= |frames| && (i < |frames| ==> Ends(frames[i]))
    requires forall k | 0 <= k < i :: !Ends(frames[k])
    ensures |Expected(frames)| == i + 1 && Disciplined(Expected(frames))
    ensures forall k | 0 <= k < i :: Expected(frames)[k] == Chunk(frames[k].data, Nil, false)
    ensures Expected(frames)[i] == if i < |frames| then ChunkOf(frames[i]) else Chunk("", Nil, true)
    decreases i
  {
    if i > 0 {
      ChunkCount(frames[1..], i - 1);
      DisciplinedCons(ChunkOf(frames[0]), Expected(frames[1..]));
      forall k | 0 <= k < i
        ensures Expected(frames)[k] == Chunk(frames[k].data, Nil, false)
      {
        if k > 0 {
          assert Expected(frames)[k] == Expected(frames[1..])[k - 1];
          assert frames[1..][k - 1] == frames[k];
        }
      }
    }
  }

  function DataOf(frames: seq<Frame>): string {
    if frames == [] then "" else frames[0].data + DataOf(frames[1..])
  }

  /** From a bridge's printed frames to the body a collecting loop ends with: without an error frame
      the loop reports no failure and exactly the data of the frames up to the end of the stream. */
  lemma {:induction false} PrintedThenCollected(frames: seq<Frame>, i: nat)
    requires forall f | f in frames :: Printable(f)
    requires i <= |frames| && (i < |frames| ==> Ends(frames[i]))
    requires forall k | 0 <= k < i :: !Ends(frames[k])
    ensures var c := Collect(Read(Print(frames), false, ""));
            if i < |frames| && frames[i].event == "error"
            then c == Collected("remote error: " + frames[i].data, DataOf(frames[..i]), i + 1)
            else c == Collected("", DataOf(frames[..if i < |frames| then i + 1 else i]), i + 1)
  {
    RoundTrip(frames, "");
    CollectExpected(frames, i);
  }

  lemma {:induction false} CollectExpected(frames: seq<Frame>, i: nat)
    requires i <= |frames| && (i < |frames| ==> Ends(frames[i]))
    requires forall k | 0 <= k < i :: !Ends(frames[k])
    ensures var c := Collect(Expected(frames));
            if i < |frames| && frames[i].event == "error"
            then c == Collected("remote error: " + frames[i].data, DataOf(frames[..i]), i + 1)
            else c == Collected("", DataOf(frames[..if i < |frames| then i + 1 else i]), i + 1)
    decreases i
  {
    if i > 0 {
      var chunks, rest := Expected(frames), Expected(frames[1..]);
      CollectExpected(frames[1..], i - 1);
      assert chunks[1..] == rest;
      assert frames[..i][1..] == frames[1..][..i - 1];
      if i < |frames| {
        assert frames[..i + 1][1..] == frames[1..][..i];
      }
    } else if frames != [] {
      assert frames[..1] == [frames[0]];
      assert DataOf(frames[..1]) == frames[0].data + DataOf([]);
      assert frames[0].data + "" == frames[0].data;
    }
  }

  // ---------------------------------------------------------------- bodies that break off

  /** A line that does not fit the buffer. */
  predicate OverLong(s: string) {
    |s| >= 65536 && '\n' !in s[..65536]
  }

  lemma {:induction false} NewlineIsFar(s: string, n: nat)
    requires n <= |s| && '\n' !in s[..n]
    ensures NewlineAt(s) >= n
    decreases n
  {
    if n > 0 {
      assert s[0] == s[..n][0] && s[1..][..n - 1] == s[..n][1..];
      NewlineIsFar(s[1..], n - 1);
    }
  }

  /** How reading ends after the last whole line: with an error if the body breaks off or a line is too long,
      with a Done otherwise. */
  lemma ReadTail(tail: string, failed: bool, eventType: string)
    requires tail == "" || OverLong(tail)
    ensures Read(tail, failed, eventType) ==
        if tail != "" || failed then [Chunk("", Err("sse read"), false)] else [Chunk("", Nil, true)]
  {
    if tail != "" {
      NewlineIsFar(tail, 65536);
    }
  }

  /** The chunks of frames none of which ends the stream. */
  function Chunks(frames: seq<Frame>): seq<Chunk> {
    if frames == [] then [] else [Chunk(frames[0].data, Nil, false)] + Chunks(frames[1..])
  }

  /** A body that breaks off, or runs into an over-long line, after whole frames gives their data and then an error:
      no collecting loop takes it for a success. */
  lemma {:induction false} BrokenOff(frames: seq<Frame>, tail: string, failed: bool, eventType: string)
    requires forall f | f in frames :: Printable(f) && !Ends(f)
    requires (tail == "" && failed) || OverLong(tail)
    ensures Read(Print(frames) + tail, failed, eventType) == Chunks(frames) + [Chunk("", Err("sse read"), false)]
    ensures Collect(Read(Print(frames) + tail, failed, eventType))
         == Collected("sse read", DataOf(frames), |frames| + 1)
    decreases |frames|
  {
    if frames == [] {
      assert Print(frames) + tail == tail;
      ReadTail(tail, failed, eventType);
    } else {
      var f, rest := frames[0], Print(frames[1..]) + tail;
      assert Print(frames) + tail == PrintFrame(f) + rest;
      ReadFrame(f, rest, failed, eventType);
      BrokenOff(frames[1..], tail, failed, "");
      assert Read(Print(frames) + tail, failed, eventType)[1..] == Read(rest, failed, "");
    }
  }

  /** A frame that ends the stream ends it, whatever follows. */
  lemma {:induction false} NothingAfterTheEnd(frames: seq<Frame>, tail: string, failed: bool, eventType: string)
    requires (forall f | f in frames :: Printable(f)) && exists f :: f in frames && Ends(f)
    ensures Read(Print(frames) + tail, failed, eventType) == Expected(frames)
    decreases |frames|
  {
    var f, rest := frames[0], Print(frames[1..]) + tail;
    assert Print(frames) + tail == PrintFrame(f) + rest;
    ReadFrame(f, rest, failed, eventType);
    if !Ends(f) {
      assert forall g | g in frames && g != f :: g in frames[1..];
      NothingAfterTheEnd(frames[1..], tail, failed, "");
    }
  }

  // ---------------------------------------------------------------- any lines

  function Text(lines: seq<string>): string {
    if lines == [] then "" else lines[0] + "\n" + Text(lines[1..])
  }

  predicate IsEvent(line: string) {
    |line| >= 7 && line[..7] == "event: "
  }

  predicate IsData(line: string) {
    |line| >= 6 && line[..6] == "data: "
  }

  /** The event type that holds at line i: that of the last event line before it, unless a data line or an empty line
      came since. Other lines, such as comments, do not matter. */
  function TypeAt(start: string, lines: seq<string>, i: nat): string
    requires i <= |lines|
  {
    if i == 0 then start
    else if IsEvent(lines[i - 1]) then lines[i - 1][7..]
    else if IsData(lines[i - 1]) || lines[i - 1] == "" then ""
    else TypeAt(start, lines, i - 1)
  }

  lemma {:induction false} TypeAtRest(start: string, lines: seq<string>, i: nat)
    requires 0 < i <= |lines|
    ensures TypeAt(start, lines, i) == TypeAt(TypeAt(start, lines, 1), lines[1..], i - 1)
    decreases i
  {
    if i > 1 {
      TypeAtRest(start, lines, i - 1);
      assert lines[1..][i - 2] == lines[i - 1];
    }
  }

  predicate EndsStream(start: string, lines: seq<string>, i: nat)
    requires i < |lines|
  {
    IsData(lines[i]) && (var t := TypeAt(start, lines, i); t == "error" || t == "done" || t == "close")
  }

  /** The chunks of the data lines before line n. */
  function DataChunks(lines: seq<string>, n: nat): seq<Chunk>
    requires n <= |lines|
  {
    if n == 0 then []
    else DataChunks(lines, n - 1) + if IsData(lines[n - 1]) then [Chunk(lines[n - 1][6..], Nil, false)] else []
  }

  lemma {:induction false} DataChunksRest(lines: seq<string>, n: nat)
    requires 0 < n <= |lines|
    ensures DataChunks(lines, n)
         == (if IsData(lines[0]) then [Chunk(lines[0][6..], Nil, false)] else []) + DataChunks(lines[1..], n - 1)
    decreases n
  {
    if n > 1 {
      DataChunksRest(lines, n - 1);
      assert lines[1..][n - 2] == lines[n - 1];
    }
  }

  /** How a stream of lines ends: at data line e, or after them all as the tail has it. */
  function LinesEnd(start: string, lines: seq<string>, e: nat, broken: bool): Chunk
    requires e <= |lines| && (e < |lines| ==> IsData(lines[e]))
  {
    if e < |lines| then
      var data := lines[e][6..];
      if TypeAt(start, lines, e) == "error" then Chunk(data, Err("remote error: " + data), false)
      else Chunk(data, Nil, true)
    else if broken then Chunk("", Err("sse read"), false)
    else Chunk("", Nil, true)
  }

  lemma PrefixIs(line: string)
    ensures HasPrefix(line, EVENT) <==> IsEvent(line)
    ensures HasPrefix(line, DATA) <==> IsData(line)
    ensures !(IsEvent(line) && IsData(line)) && |EVENT| == 7 && |DATA| == 6
  {
    assert IsEvent(line) ==> line[0] == line[..7][0] == 'e';
    assert IsData(line) ==> line[0] == line[..6][0] == 'd';
  }

  lemma ReadOneLine(line: string, rest: string, failed: bool, eventType: string)
    requires OneLine(line, 0)
    ensures Read(line + "\n" + rest, failed, eventType) ==
        if IsEvent(line) then Read(rest, failed, line[7..])
        else if !IsData(line) then Read(rest, failed, if line == "" then "" else eventType)
        else if eventType == "error" then [Chunk(line[6..], Err("remote error: " + line[6..]), false)]
        else if eventType == "done" || eventType == "close" then [Chunk(line[6..], Nil, true)]
        else [Chunk(line[6..], Nil, false)] + Read(rest, failed, "")
  {
    NextLineOf(line, rest);
    PrefixIs(line);
    assert DropCR(line) == line;
  }

  lemma FirstLineEnds(lines: seq<string>, rest: string, failed: bool, start: string, broken: bool)
    requires lines != [] && OneLine(lines[0], 0) && EndsStream(start, lines, 0)
    ensures Read(lines[0] + "\n" + rest, failed, start) == [LinesEnd(start, lines, 0, broken)]
  {
    hide Read, OneLine;
    ReadOneLine(lines[0], rest, failed, start);
    PrefixIs(lines[0]);
  }

  lemma FirstLineGoesOn(lines: seq<string>, rest: string, failed: bool, start: string)
    requires lines != [] && OneLine(lines[0], 0) && !EndsStream(start, lines, 0)
    ensures Read(lines[0] + "\n" + rest, failed, start)
         == (if IsData(lines[0]) then [Chunk(lines[0][6..], Nil, false)] else [])
            + Read(rest, failed, TypeAt(start, lines, 1))
  {
    hide Read, OneLine;
    var line := lines[0];
    ReadOneLine(line, rest, failed, start);
    PrefixIs(line);
    assert TypeAt(start, lines, 0) == start;
    var next := TypeAt(start, lines, 1);
    if IsEvent(line) {
      assert next == line[7..];
    } else if !IsData(line) {
      assert next == if line == "" then "" else start;
    } else {
      assert next == "";
    }
    hide TypeAt, EndsStream;
    assert [] + Read(rest, failed, next) == Read(rest, failed, next);
  }

  /** Any lines at all, not only printed frames: reading gives one chunk for every data line, up to the first whose
      event type ends the stream; if none does, a Done, or an error if the body breaks off or a line is too long. */
  lemma {:induction false} ReadLines(lines: seq<string>, e: nat, tail: string, failed: bool, start: string)
    requires forall line | line in lines :: OneLine(line, 0)
    requires e <= |lines| && (e < |lines| ==> EndsStream(start, lines, e))
    requires forall i | 0 <= i < e :: !EndsStream(start, lines, i)
    requires tail == "" || OverLong(tail)
    ensures Read(Text(lines) + tail, failed, start)
         == DataChunks(lines, e) + [LinesEnd(start, lines, e, tail != "" || failed)]
    decreases |lines|
  {
    hide Read, OneLine, TypeAt, EndsStream, LinesEnd, OverLong;
    var broken := tail != "" || failed;
    if lines == [] {
      assert Text(lines) + tail == tail;
      ReadTail(tail, failed, start);
      NoLines(start, broken);
      assert DataChunks(lines, e) == [];
    } else {
      var rest := Text(lines[1..]) + tail;
      assert Text(lines) + tail == lines[0] + "\n" + rest;
      assert lines[0] in lines;
      if e > 0 {
        assert !EndsStream(start, lines, 0);
        FirstLineGoesOn(lines, rest, failed, start);
        ReadLinesRest(lines, e, start);
        assert forall other | other in lines[1..] :: other in lines;
        ReadLines(lines[1..], e - 1, tail, failed, TypeAt(start, lines, 1));
        DataChunksRest(lines, e);
        LinesEndRest(start, lines, e, broken) by { DataLineAt(start, lines, e); }
        hide DataChunks;
      } else {
        FirstLineEnds(lines, rest, failed, start, broken);
        assert DataChunks(lines, 0) == [];
        DataLineAt(start, lines, 0);
      }
    }
  }

  lemma NoLines(start: string, broken: bool)
    ensures LinesEnd(start, [], 0, broken) == if broken then Chunk("", Err("sse read"), false) else Chunk("", Nil, true)
  {}

  lemma DataLineAt(start: string, lines: seq<string>, e: nat)
    requires e <= |lines| && (e < |lines| ==> EndsStream(start, lines, e))
    ensures e < |lines| ==> IsData(lines[e])
  {}

  lemma ReadLinesRest(lines: seq<string>, e: nat, start: string)
    requires 0 < e <= |lines| && (e < |lines| ==> EndsStream(start, lines, e))
    requires forall i | 0 <= i < e :: !EndsStream(start, lines, i)
    ensures var t, rest := TypeAt(start, lines, 1), lines[1..];
      && (e - 1 < |rest| ==> EndsStream(t, rest, e - 1)) && forall i | 0 <= i < e - 1 :: !EndsStream(t, rest, i)
  {
    forall i: nat | i < |lines[1..]|
      ensures EndsStream(TypeAt(start, lines, 1), lines[1..], i) <==> EndsStream(start, lines, i + 1)
    {
      TypeAtRest(start, lines, i + 1);
    }
    forall i: nat | i < e - 1 ensures !EndsStream(TypeAt(start, lines, 1), lines[1..], i) {
      assert !EndsStream(start, lines, i + 1);
    }
  }

  lemma LinesEndRest(start: string, lines: seq<string>, e: nat, broken: bool)
    requires 0 < e <= |lines| && (e < |lines| ==> IsData(lines[e]))
    ensures LinesEnd(start, lines, e, broken) == LinesEnd(TypeAt(start, lines, 1), lines[1..], e - 1, broken)
  {
    TypeAtRest(start, lines, e);
  }

  /** Lines may end in a carriage return and a newline, and the last one in nothing. */
  lemma OtherLineEnds(line: string, rest: string)
    requires '\n' !in line && |line| < 65535
    ensures NextLine(line + "\r" + "\n" + rest) == Line(line, rest)
    ensures line != "" ==> NextLine(line) == NextLine(line + "\n")
  {
    NextLineOf(line + "\r", rest);
    assert (line + "\r")[..|line|] == line;
    if line != "" {
      NewlineIsFar(line, |line|);
      assert line[..|line|] == line;
      NextLineOf(line, "");
      assert line + "\n" + "" == line + "\n";
    }
  }

  /** What each bridge writes for one event. */
  lemma FrameText(f: Frame)
    ensures PrintFrame(f) == "event: " + f.event + "\ndata: " + f.data + "\n\n"
  {}
}
