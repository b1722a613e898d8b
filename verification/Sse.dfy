/** The server's event frames and the client's chunked reader
    (backend/internal/chat/streaming_http.go:21-46, frontend/src/lib/sse.ts:37-125;
    the event-stream format is sections 9.2.5 and 9.2.6 of the WHATWG HTML Standard). */
module Sse {
  import opened Text

  datatype Frame = Frame(event: string, data: string)

  // ------------------------------------------------------------ the writer

  /** `writeEvent`: two writes and a flush; the payload is the marshalled event. */
  function Printed(f: Frame): string {
    "event: " + f.event + "\n" + ("data: " + f.data + "\n\n")
  }

  function PrintedAll(frames: seq<Frame>): string {
    if frames == [] then "" else Printed(frames[0]) + PrintedAll(frames[1..])
  }

  // ------------------------------------------------------------ the reader

  function ParseFieldValue(value: string): string {
    if " " <= value then value[1..] else value
  }

  /** What the lines read so far say: the event name and the data lines. */
  datatype Fields = Fields(event: string, data: seq<string>)

  function ReadLine(f: Fields, line: string): Fields {
    if line == "" || ":" <= line then f
    else if "event:" <= line then
      var value := ParseFieldValue(line[6..]);
      f.(event := if value == "" then "message" else value)
    else if "data:" <= line then f.(data := f.data + [ParseFieldValue(line[5..])])
    else f
  }

  function ReadLines(lines: seq<string>): Fields {
    if lines == [] then Fields("message", [])
    else ReadLine(ReadLines(lines[..|lines| - 1]), lines[|lines| - 1])
  }

  function Parsed(rawEvent: string): Option<Frame> {
    var f := ReadLines(Lines(rawEvent));
    if f.data == [] then None else Some(Frame(f.event, Join(f.data)))
  }

  lemma ColonSpace(name: string, value: string)
    ensures (name + " " + value)[|name|..] == " " + value && ParseFieldValue(" " + value) == value
    ensures name + (" " + value) == name + " " + value
  {
    assert (" " + value)[1..] == value;
  }

  lemma EventLineMeans(f: Fields, rest: string)
    ensures ReadLine(f, "event:" + rest) ==
      f.(event := if ParseFieldValue(rest) == "" then "message" else ParseFieldValue(rest))
  {
    assert ("event:" + rest)[0] == 'e' && "event:" <= "event:" + rest && ("event:" + rest)[6..] == rest;
  }

  lemma DataLineMeans(f: Fields, rest: string)
    ensures ReadLine(f, "data:" + rest) == f.(data := f.data + [ParseFieldValue(rest)])
  {
    assert ("data:" + rest)[0] == 'd' && "data:" <= "data:" + rest && ("data:" + rest)[5..] == rest;
  }

  lemma OtherLineMeans(f: Fields, line: string)
    ensures !("data:" <= line) && !("event:" <= line) ==> ReadLine(f, line) == f
  {
  }

  /** What a line says: a data line adds its value, an event line gives the name, one space behind
      the colon does not count, and any other line says nothing. */
  lemma LineMeans(f: Fields, value: string)
    ensures ReadLine(f, "data: " + value) == f.(data := f.data + [value])
    ensures ReadLine(f, "event: " + value) == f.(event := if value == "" then "message" else value)
    ensures !(" " <= value) ==>
      && ReadLine(f, "data:" + value) == f.(data := f.data + [value])
      && ReadLine(f, "event:" + value) == f.(event := if value == "" then "message" else value)
    ensures !("data:" <= value) && !("event:" <= value) ==> ReadLine(f, value) == f
  {
    ColonSpace("event:", value);
    ColonSpace("data:", value);
    EventLineMeans(f, value);
    EventLineMeans(f, " " + value);
    DataLineMeans(f, value);
    DataLineMeans(f, " " + value);
    hide ReadLine;
    OtherLineMeans(f, value);
    assert "event:" + " " == "event: " && "data:" + " " == "data: ";
  }

  lemma ReadNext(lines: seq<string>, line: string)
    ensures ReadLines(lines + [line]) == ReadLine(ReadLines(lines), line)
  {
    assert (lines + [line])[..|lines|] == lines;
  }

  function DataLines(data: seq<string>): seq<string> {
    if data == [] then [] else DataLines(data[..|data| - 1]) + ["data: " + data[|data| - 1]]
  }

  lemma {:induction false} DataLinesRead(lines: seq<string>, data: seq<string>)
    ensures ReadLines(lines + DataLines(data)) == ReadLines(lines).(data := ReadLines(lines).data + data)
    ensures forall i :: 0 <= i < |DataLines(data)| ==> "data: " <= DataLines(data)[i]
    decreases |data|
  {
    hide ReadLine, ReadLines;
    if data == [] {
      assert lines + [] == lines;
      assert ReadLines(lines).data + [] == ReadLines(lines).data;
    } else {
      var n := |data| - 1;
      DataLinesRead(lines, data[..n]);
      Regroup(lines, DataLines(data[..n]), ["data: " + data[n]]);
      ReadNext(lines + DataLines(data[..n]), "data: " + data[n]);
      LineMeans(ReadLines(lines + DataLines(data[..n])), data[n]);
      Regroup(ReadLines(lines).data, data[..n], [data[n]]);
      assert data == data[..n] + [data[n]];
    }
  }

  lemma NoLines()
    ensures ReadLines([]) == Fields("message", [])
  {
  }

  /** An event of any number of data lines, with a name or without: the data of all lines comes
      back, and no name is the name "message". */
  lemma EventRead(name: Option<string>, data: seq<string>)
    requires name.Some? ==> name.value != ""
    ensures var lines := (if name.Some? then ["event: " + name.value] else []) + DataLines(data);
      var f := ReadLines(lines);
      && f.event == (if name.Some? then name.value else "message")
      && f.data == data
      && (lines != [] && (forall i :: 0 <= i < |lines| ==> NoLineFeed(lines[i])) ==>
            Parsed(Join(lines)) == if data == [] then None else Some(Frame(f.event, Join(data))))
  {
    var head := if name.Some? then ["event: " + name.value] else [];
    NoLines();
    if name.Some? {
      ReadNext([], "event: " + name.value);
      assert [] + ["event: " + name.value] == head;
      LineMeans(ReadLines([]), name.value);
    }
    DataLinesRead(head, data);
    assert [] + data == data;
    hide ReadLine, ReadLines, DataLines;
    var lines := head + DataLines(data);
    if lines != [] && forall i :: 0 <= i < |lines| ==> NoLineFeed(lines[i]) {
      LinesOfJoin(lines);
    }
  }

  method ParseEvent(rawEvent: string) returns (r: Option<Frame>)
    ensures r == Parsed(rawEvent)
  {
    var lines := Lines(rawEvent);
    var event := "message";
    var dataLines: seq<string> := [];
    for i := 0 to |lines|
      invariant Fields(event, dataLines) == ReadLines(lines[..i])
    {
      var line := lines[i];
      assert lines[..i + 1][..i] == lines[..i];
      if line == "" || ":" <= line {
        continue;
      }
      if "event:" <= line {
        event := ParseFieldValue(line[6..]);
        if event == "" {
          event := "message";
        }
        continue;
      }
      if "data:" <= line {
        dataLines := dataLines + [ParseFieldValue(line[5..])];
      }
    }
    assert lines[..|lines|] == lines;
    if |dataLines| == 0 {
      return None;
    }
    return Some(Frame(event, Join(dataLines)));
  }

  function Dispatched(rawEvent: string): seq<Frame> {
    match Parsed(rawEvent)
    case Some(f) => [f]
    case None => []
  }

  /** Events in order, and the text that is not yet a whole event. */
  datatype Read = Read(events: seq<Frame>, rest: string)

  /** Everything that ends in a blank line. */
  function Drained(buffer: string): Read
    decreases |buffer|
  {
    var k := IndexOf(buffer, "\n\n");
    if k < 0 then Read([], buffer)
    else
      var r := Drained(buffer[k + 2..]);
      Read(Dispatched(buffer[..k]) + r.events, r.rest)
  }

  lemma DrainedFound(text: string, k: nat)
    requires IndexOf(text, "\n\n") == k
    ensures k + 2 <= |text|
    ensures var r := Drained(text[k + 2..]);
      Drained(text) == Read(Dispatched(text[..k]) + r.events, r.rest)
  {
    hide Dispatched, IndexOf;
  }

  lemma DrainedNone(text: string)
    requires IndexOf(text, "\n\n") < 0
    ensures Drained(text) == Read([], text)
  {
    hide Dispatched, IndexOf;
  }

  /** `buffer.replace(/\n+$/g, '')` */
  function TrimNewlines(s: string): string {
    if s != "" && s[|s| - 1] == '\n' then TrimNewlines(s[..|s| - 1]) else s
  }

  function Flushed(buffer: string): seq<Frame> {
    var r := Drained(buffer);
    var trailing := TrimNewlines(r.rest);
    r.events + (if trailing == "" then [] else Dispatched(trailing))
  }

  method ComputeTrimNewlines(s: string) returns (r: string)
    ensures r == TrimNewlines(s)
  {
    var n := |s|;
    assert s[..n] == s;
    while n > 0 && s[n - 1] == '\n'
      invariant 0 <= n <= |s|
      invariant TrimNewlines(s) == TrimNewlines(s[..n])
    {
      n := n - 1;
      assert s[..n + 1][..n] == s[..n];
    }
    r := s[..n];
  }

  /** The reader of one response: its buffer, and the events passed to `onEvent`. */
  class Reader {
    var buffer: string
    var events: seq<Frame>

    constructor ()
      ensures buffer == "" && events == []
    {
      buffer, events := "", [];
    }

    method DispatchParsedEvent(rawEvent: string)
      modifies this`events
      ensures events == old(events) + Dispatched(rawEvent)
    {
      var parsed := ParseEvent(rawEvent);
      if parsed.Some? {
        events := events + [parsed.value];
      }
    }

    method DispatchBufferedEvents(text: string, flushRemaining: bool) returns (rest: string)
      modifies this`events
      ensures flushRemaining ==> rest == "" && events == old(events) + Flushed(text)
      ensures !flushRemaining ==> rest == Drained(text).rest && events == old(events) + Drained(text).events
    {
      hide Dispatched, Drained, IndexOf, TrimNewlines;
      ghost var before := events;
      rest := text;
      var separatorIndex := IndexOf(rest, "\n\n");
      while separatorIndex >= 0
        invariant separatorIndex == IndexOf(rest, "\n\n")
        invariant before <= events
        invariant events + Drained(rest).events == before + Drained(text).events
        invariant Drained(rest).rest == Drained(text).rest
        decreases |rest|
      {
        DrainedFound(rest, separatorIndex);
        var rawEvent := rest[..separatorIndex];
        rest := rest[separatorIndex + 2..];
        DispatchParsedEvent(rawEvent);
        separatorIndex := IndexOf(rest, "\n\n");
      }
      DrainedNone(rest);
      assert events + [] == events;
      if flushRemaining {
        var trailingEvent := ComputeTrimNewlines(rest);
        if trailingEvent != "" {
          DispatchParsedEvent(trailingEvent);
        }
        return "";
      }
    }

    /** One iteration of the read loop. */
    method Feed(chunk: string)
      modifies this
      ensures var r := Drained(old(buffer) + NormalizeLineEnds(chunk));
        buffer == r.rest && events == old(events) + r.events
    {
      buffer := buffer + NormalizeLineEnds(chunk);
      buffer := DispatchBufferedEvents(buffer, false);
    }

    method Finish()
      modifies this
      ensures events == old(events) + Flushed(old(buffer))
    {
      buffer := DispatchBufferedEvents(buffer, true);
    }
  }

  // ---------------------------------------------------- any chunking at all

  /** What the read loop has after the given chunks, before the final flush. */
  function Fed(chunks: seq<string>): Read {
    if chunks == [] then Read([], "")
    else
      var r := Fed(chunks[..|chunks| - 1]);
      var d := Drained(r.rest + NormalizeLineEnds(chunks[|chunks| - 1]));
      Read(r.events + d.events, d.rest)
  }

  function Concat(chunks: seq<string>): string {
    if chunks == [] then ""
    else Concat(chunks[..|chunks| - 1]) + chunks[|chunks| - 1]
  }

  function Normalized(chunks: seq<string>): seq<string> {
    seq(|chunks|, i requires 0 <= i < |chunks| => NormalizeLineEnds(chunks[i]))
  }

  /** Draining what is left together with later text is draining it all at once. */
  lemma {:induction false} DrainInPieces(a: string, b: string)
    ensures var r := Drained(a);
      var d := Drained(r.rest + b);
      Drained(a + b) == Read(r.events + d.events, d.rest)
    decreases |a|
  {
    hide Dispatched, IndexOf, Drained;
    var k := IndexOf(a, "\n\n");
    if k < 0 {
      DrainedNone(a);
      assert [] + Drained(a + b).events == Drained(a + b).events;
    } else {
      DrainInPieces(a[k + 2..], b);
      IndexOfExtend(a, b, "\n\n");
      DrainedFound(a, k);
      DrainedFound(a + b, k);
      assert (a + b)[k + 2..] == a[k + 2..] + b;
      assert (a + b)[..k] == a[..k];
      var d := Drained(Drained(a[k + 2..]).rest + b);
      assert Dispatched(a[..k]) + (Drained(a[k + 2..]).events + d.events)
          == Dispatched(a[..k]) + Drained(a[k + 2..]).events + d.events;
    }
  }

  /** The loop sees only the concatenation of the normalised chunks. */
  lemma {:induction false} FedIsDrained(chunks: seq<string>)
    ensures Fed(chunks) == Drained(Concat(Normalized(chunks)))
  {
    hide Drained, NormalizeLineEnds;
    if chunks == [] {
      assert Drained("") == Read([], "") by { DrainedNone(""); }
    } else {
      var n := |chunks| - 1;
      FedIsDrained(chunks[..n]);
      assert Normalized(chunks)[..n] == Normalized(chunks[..n]);
      DrainInPieces(Concat(Normalized(chunks[..n])), NormalizeLineEnds(chunks[n]));
    }
  }

  /** A boundary between the two characters of a line end. */
  predicate SplitsCrLf(a: string, b: string) {
    a != "" && b != "" && a[|a| - 1] == '\r' && b[0] == '\n'
  }

  /** What follows the first character, or the first line end of two characters. */
  function AfterFirst(s: string): string
    requires s != ""
  {
    if s[0] == '\r' && |s| > 1 && s[1] == '\n' then s[2..] else s[1..]
  }

  function NormalFirst(s: string): char
    requires s != ""
  {
    if s[0] == '\r' then '\n' else s[0]
  }

  lemma NormalizeStep(s: string)
    requires s != ""
    ensures NormalizeLineEnds(s) == [NormalFirst(s)] + NormalizeLineEnds(AfterFirst(s))
  {
  }

  lemma FirstOfSum(a: string, b: string)
    requires a != "" && !(SplitsCrLf(a, b) && |a| == 1)
    ensures AfterFirst(a + b) == AfterFirst(a) + b && NormalFirst(a + b) == NormalFirst(a)
    ensures SplitsCrLf(AfterFirst(a), b) <==> SplitsCrLf(a, b)
  {
  }

  /** Normalising in two pieces is the same as at once exactly when no CRLF is cut. */
  lemma {:induction false} NormalizeInPieces(a: string, b: string)
    ensures !SplitsCrLf(a, b) ==> NormalizeLineEnds(a + b) == NormalizeLineEnds(a) + NormalizeLineEnds(b)
    ensures SplitsCrLf(a, b) ==> |NormalizeLineEnds(a + b)| + 1 == |NormalizeLineEnds(a)| + |NormalizeLineEnds(b)|
    decreases |a|
  {
    var s := a + b;
    if a == "" {
      assert s == b;
    } else {
      hide NormalizeLineEnds;
      NormalizeStep(a);
      NormalizeStep(s);
      if SplitsCrLf(a, b) && |a| == 1 {
        NormalizeStep(b);
        assert s[2..] == b[1..];
      } else {
        var rest := AfterFirst(a);
        FirstOfSum(a, b);
        hide AfterFirst, NormalFirst, SplitsCrLf;
        NormalizeInPieces(rest, b);
        Regroup([NormalFirst(a)], NormalizeLineEnds(rest), NormalizeLineEnds(b));
      }
    }
  }

  lemma NormalizeSplitsExactly(a: string, b: string)
    ensures NormalizeLineEnds(a + b) == NormalizeLineEnds(a) + NormalizeLineEnds(b) <==> !SplitsCrLf(a, b)
  {
    NormalizeInPieces(a, b);
  }

  /** Normalised text has line feeds only. */
  lemma {:induction false} NormalizedHasNoReturn(s: string)
    ensures NoReturn(NormalizeLineEnds(s))
    decreases |s|
  {
    if s == "" {
    } else {
      NormalizeStep(s);
      NormalizedHasNoReturn(AfterFirst(s));
    }
  }

  ghost predicate NoCutLineEnd(chunks: seq<string>) {
    forall i :: 0 <= i < |chunks| ==> !SplitsCrLf(Concat(chunks[..i]), chunks[i])
  }

  lemma NormalizeNothing()
    ensures NormalizeLineEnds("") == ""
  {
  }

  lemma {:induction false} NormalizeAll(chunks: seq<string>)
    requires NoCutLineEnd(chunks)
    ensures Concat(Normalized(chunks)) == NormalizeLineEnds(Concat(chunks))
  {
    hide NormalizeLineEnds;
    if chunks == [] {
      assert NormalizeLineEnds("") == "" by { NormalizeNothing(); }
    } else {
      var n := |chunks| - 1;
      forall i | 0 <= i < n ensures !SplitsCrLf(Concat(chunks[..n][..i]), chunks[..n][i]) {
        assert chunks[..n][..i] == chunks[..i];
      }
      NormalizeAll(chunks[..n]);
      assert Normalized(chunks)[..n] == Normalized(chunks[..n]);
      NormalizeInPieces(Concat(chunks[..n]), chunks[n]);
    }
  }

  /** Whatever line ends the text uses, what is dispatched depends on the text alone
      and not on its chunks, as long as no boundary cuts a CRLF. */
  lemma ChunkIndependent(chunks: seq<string>)
    requires NoCutLineEnd(chunks)
    ensures Fed(chunks) == Drained(NormalizeLineEnds(Concat(chunks)))
  {
    hide Drained, NormalizeLineEnds, Fed, Concat;
    FedIsDrained(chunks);
    NormalizeAll(chunks);
  }

  /** `streamSSE`: read every chunk, then flush. */
  method StreamSse(chunks: seq<string>) returns (events: seq<Frame>)
    ensures events == Fed(chunks).events + Flushed(Fed(chunks).rest)
  {
    hide Drained, Flushed, NormalizeLineEnds;
    var reader := new Reader();
    for i := 0 to |chunks|
      invariant Read(reader.events, reader.buffer) == Fed(chunks[..i])
    {
      assert chunks[..i + 1][..i] == chunks[..i];
      reader.Feed(chunks[i]);
    }
    assert chunks[..|chunks|] == chunks;
    reader.Finish();
    events := reader.events;
  }

  // ---------------------------------------------------------- the round trip

  predicate IsFrame(f: Frame) {
    f.event != "" && OneLine(f.event) && OneLine(f.data)
  }

  predicate AreFrames(frames: seq<Frame>) {
    forall i :: 0 <= i < |frames| ==> IsFrame(frames[i])
  }

  function EventLine(f: Frame): string { "event: " + f.event }

  function DataLine(f: Frame): string { "data: " + f.data }

  lemma LinesOfPrinted(f: Frame)
    requires IsFrame(f)
    ensures Lines(EventLine(f) + "\n" + DataLine(f)) == [EventLine(f), DataLine(f)]
  {
    LinesFirst(EventLine(f), DataLine(f));
    LinesFirst(DataLine(f), "");
    hide Lines;
  }

  lemma ParsedPrinted(f: Frame)
    requires IsFrame(f)
    ensures Parsed(EventLine(f) + "\n" + DataLine(f)) == Some(f)
  {
    LinesOfPrinted(f);
    hide Lines, ReadLine, ReadLines;
    var e, d := EventLine(f), DataLine(f);
    NoLines();
    ReadNext([], e);
    ReadNext([e], d);
    LineMeans(Fields("message", []), f.event);
    LineMeans(Fields(f.event, []), f.data);
    assert [] + [e] == [e] && [e] + [d] == [e, d];
    assert [] + [f.data] == [f.data];
  }

  lemma PrintedLines(f: Frame)
    ensures Printed(f) == EventLine(f) + "\n" + DataLine(f) + "\n\n"
  {
  }

  lemma TwoFeeds(s: string, j: nat)
    requires OccursAt(s, "\n\n", j)
    ensures s[j] == '\n' && s[j + 1] == '\n'
  {
    assert s[j] == s[j..j + 2][0] && s[j + 1] == s[j..j + 2][1];
  }

  /** A frame's only blank line is its last. */
  lemma FrameSeparator(f: Frame, tail: string)
    requires IsFrame(f)
    ensures IndexOf(Printed(f) + tail, "\n\n") == |Printed(f)| - 2
  {
    PrintedLines(f);
    var e, d := EventLine(f), DataLine(f);
    assert OneLine(e) && OneLine(d);
    var s, n := Printed(f) + tail, |Printed(f)| - 2;
    assert s[n..n + 2] == "\n\n";
    forall j | 0 <= j < n ensures !OccursAt(s, "\n\n", j) {
      assert s[j] == '\n' ==> j == |e| && s[j + 1] == d[0];
      if OccursAt(s, "\n\n", j) {
        TwoFeeds(s, j);
      }
    }
    IndexOfIs(s, "\n\n", n);
  }

  lemma DrainedFrame(f: Frame, tail: string)
    requires IsFrame(f)
    ensures Drained(Printed(f) + tail) == Read([f] + Drained(tail).events, Drained(tail).rest)
  {
    hide IndexOf, Parsed, Drained, IsFrame, Printed;
    FrameSeparator(f, tail);
    PrintedLines(f);
    ParsedPrinted(f);
    var s, n := Printed(f) + tail, |Printed(f)| - 2;
    DrainedFound(s, n);
    assert s[..n] == EventLine(f) + "\n" + DataLine(f);
    assert s[n + 2..] == tail;
  }

  lemma {:induction false} DrainedFrames(frames: seq<Frame>, tail: string)
    requires AreFrames(frames)
    ensures Drained(PrintedAll(frames) + tail) == Read(frames + Drained(tail).events, Drained(tail).rest)
  {
    hide Drained, Printed, IsFrame;
    if frames == [] {
      assert PrintedAll(frames) + tail == tail;
      assert frames + Drained(tail).events == Drained(tail).events;
    } else {
      var more := PrintedAll(frames[1..]) + tail;
      DrainedFrames(frames[1..], tail);
      DrainedFrame(frames[0], more);
      assert PrintedAll(frames) + tail == Printed(frames[0]) + more;
      assert frames + Drained(tail).events == [frames[0]] + (frames[1..] + Drained(tail).events);
    }
  }

  lemma {:induction false} PrintedHasNoReturn(frames: seq<Frame>)
    requires AreFrames(frames)
    ensures NoReturn(PrintedAll(frames))
  {
    if frames == [] {
    } else {
      PrintedHasNoReturn(frames[1..]);
      assert IsFrame(frames[0]);
    }
  }

  lemma {:induction false} PrefixHas(chunks: seq<string>, i: nat)
    requires i <= |chunks|
    ensures Concat(chunks[..i]) <= Concat(chunks)
    decreases |chunks| - i
  {
    if i == |chunks| {
      assert chunks[..i] == chunks;
    } else {
      PrefixHas(chunks, i + 1);
      assert chunks[..i + 1][..i] == chunks[..i];
    }
  }

  lemma PlainChunks(chunks: seq<string>)
    requires NoReturn(Concat(chunks))
    ensures Fed(chunks) == Drained(Concat(chunks))
  {
    hide Drained, Fed, NormalizeLineEnds, Concat;
    forall i | 0 <= i < |chunks| ensures !SplitsCrLf(Concat(chunks[..i]), chunks[i]) {
      if SplitsCrLf(Concat(chunks[..i]), chunks[i]) {
        PrefixHas(chunks, i);
      }
    }
    ChunkIndependent(chunks);
    NormalizePlain(Concat(chunks));
  }

  /** SSE round trip: whatever the chunks, the client dispatches exactly the server's
      frames, in order, and the final flush adds nothing. */
  lemma RoundTrip(frames: seq<Frame>, chunks: seq<string>)
    requires AreFrames(frames) && Concat(chunks) == PrintedAll(frames)
    ensures Fed(chunks).events == frames && Fed(chunks).rest == ""
    ensures Fed(chunks).events + Flushed(Fed(chunks).rest) == frames
  {
    hide Fed, Printed, IsFrame, Concat, PrintedAll;
    PrintedHasNoReturn(frames);
    PlainChunks(chunks);
    DrainedFrames(frames, "");
    assert PrintedAll(frames) + "" == PrintedAll(frames);
    DrainedNone("");
    assert frames + [] == frames;
  }

  lemma {:induction false} PrintedAppend(frames: seq<Frame>, k: nat)
    requires k < |frames|
    ensures PrintedAll(frames[..k + 1]) == PrintedAll(frames[..k]) + Printed(frames[k])
    ensures PrintedAll(frames[..k + 1]) <= PrintedAll(frames)
  {
    hide Printed;
    if k == 0 {
      assert frames[..1][1..] == [] && frames[..0] == [];
    } else {
      PrintedAppend(frames[1..], k - 1);
      assert frames[..k + 1][1..] == frames[1..][..k];
      assert frames[..k][1..] == frames[1..][..k - 1];
    }
  }

  lemma IncompleteFrame(f: Frame, p: string)
    requires IsFrame(f) && p <= Printed(f) && |p| < |Printed(f)|
    ensures IndexOf(p, "\n\n") < 0
  {
    hide Printed, IsFrame;
    var s := Printed(f);
    FrameSeparator(f, "");
    assert s + "" == s;
    if IndexOf(p, "\n\n") >= 0 {
      assert s == p + s[|p|..];
      IndexOfExtend(p, s[|p|..], "\n\n");
    }
  }

  /** Before the end, and before the final flush, the client has dispatched exactly
      the frames that lie wholly in the text received so far. */
  lemma PrefixDispatchesWholeFrames(frames: seq<Frame>, chunks: seq<string>, k: nat)
    requires AreFrames(frames) && Concat(chunks) <= PrintedAll(frames) && k < |frames|
    requires |PrintedAll(frames[..k])| <= |Concat(chunks)| < |PrintedAll(frames[..k + 1])|
    ensures Fed(chunks).events == frames[..k]
  {
    hide Fed, Printed, IsFrame, Concat, PrintedAll, Drained;
    var text := Concat(chunks);
    PrintedHasNoReturn(frames);
    assert NoReturn(text);
    PlainChunks(chunks);
    PrintedAppend(frames, k);
    var head, f := PrintedAll(frames[..k]), frames[k];
    var p := text[|head|..];
    assert text == PrintedAll(frames)[..|text|];
    assert text == head + p;
    assert p <= Printed(f) && |p| < |Printed(f)|;
    assert IsFrame(f);
    IncompleteFrame(f, p);
    DrainedFrames(frames[..k], p);
    DrainedNone(p);
    assert frames[..k] + [] == frames[..k];
  }
}
