/** What a chunk boundary inside a CRLF does to the client's events
    (frontend/src/lib/sse.ts:37-117): the two halves become two line ends, which can split
    one event into two. */
module SseCuts {
  import opened Text
  import opened Sse

  /** All events of a response, the final flush included. */
  function EventsOf(chunks: seq<string>): seq<Frame> {
    Fed(chunks).events + Flushed(Fed(chunks).rest)
  }

  // ------------------------------------------------------------ paragraphs

  /** The event that a run of lines stands for. */
  function EventOf(lines: seq<string>): seq<Frame> {
    var f := ReadLines(lines);
    if f.data == [] then [] else [Frame(f.event, Join(f.data))]
  }

  /** The events of the lines, with the lines of the paragraph so far: an empty line ends a
      paragraph, and so does the end. */
  function EventsFrom(open: seq<string>, lines: seq<string>): seq<Frame>
    decreases |lines|
  {
    if lines == [] then EventOf(open)
    else if lines[0] == "" then EventOf(open) + EventsFrom([], lines[1..])
    else EventsFrom(open + [lines[0]], lines[1..])
  }

  ghost predicate NoEmpty(lines: seq<string>) {
    forall i :: 0 <= i < |lines| ==> lines[i] != ""
  }

  /** Full lines and then more. */
  lemma {:induction false} EventsBehindFull(open: seq<string>, full: seq<string>, more: seq<string>)
    requires NoEmpty(full)
    ensures EventsFrom(open, full + more) == EventsFrom(open + full, more)
    decreases |full|
  {
    hide EventOf;
    if full == [] {
      assert full + more == more && open + full == open;
    } else {
      EventsBehindFull(open + [full[0]], full[1..], more);
      assert (full + more)[0] == full[0] && (full + more)[1..] == full[1..] + more;
      assert open + [full[0]] + full[1..] == open + full;
    }
  }

  lemma EventsAtEnd(open: seq<string>, more: seq<string>)
    ensures EventsFrom(open, []) == EventOf(open)
    ensures EventsFrom(open, [""] + more) == EventOf(open) + EventsFrom([], more)
    ensures EventOf([]) == []
  {
    assert ([""] + more)[1..] == more;
  }

  // ----------------------------------------------- the reader by paragraphs

  ghost predicate NoDouble(s: string) {
    forall i :: 0 <= i < |s| - 1 ==> !(s[i] == '\n' && s[i + 1] == '\n')
  }

  lemma DoubleOccurs(s: string, i: nat)
    requires i + 1 < |s| && s[i] == '\n' && s[i + 1] == '\n'
    ensures OccursAt(s, "\n\n", i)
  {
    assert s[i..i + 2] == [s[i], s[i + 1]];
  }

  lemma NoDoubleIs(s: string, k: int)
    requires IndexOf(s, "\n\n") == k
    ensures k < 0 ==> NoDouble(s)
    ensures k >= 0 ==> NoDouble(s[..k]) && (k > 0 ==> s[k - 1] != '\n')
    ensures k >= 0 ==> k + 2 <= |s| && s == s[..k] + "\n" + ("\n" + s[k + 2..])
  {
    IndexOfFirst(s, "\n\n");
    forall i | 0 <= i < |s| - 1 && (k < 0 || i < k) ensures !(s[i] == '\n' && s[i + 1] == '\n') {
      if s[i] == '\n' && s[i + 1] == '\n' {
        DoubleOccurs(s, i);
      }
    }
    if k >= 0 {
      TwoFeeds(s, k);
      hide IndexOf;
      assert s[k..k + 2] == "\n" + "\n";
      assert s == s[..k] + s[k..k + 2] + s[k + 2..];
    }
  }

  /** Without two line feeds in a row only the first line can be empty. */
  lemma {:induction false} OnlyFirstEmpty(s: string)
    requires NoDouble(s) && (s != "" ==> s[|s| - 1] != '\n')
    ensures NoEmpty(Lines(s)[1..])
    ensures s != "" && s[0] != '\n' ==> Lines(s)[0] != ""
  {
    if s == "" {
    } else {
      var t := s[1..];
      assert NoDouble(t) by {
        forall i | 0 <= i < |t| - 1 ensures !(t[i] == '\n' && t[i + 1] == '\n') {
          assert t[i] == s[i + 1] && t[i + 1] == s[i + 2];
        }
      }
      assert t != "" ==> t[|t| - 1] == s[|s| - 1];
      OnlyFirstEmpty(t);
      if s[0] == '\n' {
        assert t[0] == s[1] != '\n';
        assert Lines(s)[1..] == Lines(t);
        assert Lines(t) == [Lines(t)[0]] + Lines(t)[1..];
      } else {
        assert Lines(s)[1..] == Lines(t)[1..];
      }
    }
  }

  lemma EmptyLine()
    ensures ReadLine(Fields("message", []), "") == Fields("message", [])
  {
  }

  lemma {:induction false} EmptyFirst(lines: seq<string>)
    ensures ReadLines([""] + lines) == ReadLines(lines)
    decreases |lines|
  {
    hide ReadLine;
    if lines == [] {
      assert ReadLine(Fields("message", []), "") == Fields("message", []) by { EmptyLine(); }
      assert [""] + lines == [""] && [""][..0] == [];
    } else {
      var n := |lines| - 1;
      EmptyFirst(lines[..n]);
      assert ([""] + lines)[..n + 1] == [""] + lines[..n];
    }
  }

  /** Lines without an empty one at the start. */
  function Full(lines: seq<string>): seq<string> {
    if lines != [] && lines[0] == "" then lines[1..] else lines
  }

  lemma FullReads(lines: seq<string>)
    ensures EventOf(Full(lines)) == EventOf(lines)
  {
    hide ReadLines;
    if lines != [] && lines[0] == "" {
      EmptyFirst(lines[1..]);
      assert lines == [""] + lines[1..];
    }
  }

  lemma FullIs(lines: seq<string>)
    ensures lines == Full(lines) || lines == [""] + Full(lines)
  {
  }

  lemma FullEvents(lines: seq<string>, tail: seq<string>)
    requires NoEmpty(Full(lines))
    ensures EventsFrom([], lines + tail) == EventsFrom(Full(lines), tail)
  {
    FullIs(lines);
    hide EventOf, EventsFrom, Full, NoEmpty;
    var full := Full(lines);
    EventsBehindFull([], full, tail);
    assert [] + full == full;
    if lines == [""] + full {
      Regroup([""], full, tail);
      EventsAtEnd([], full + tail);
      assert [] + EventsFrom([], full + tail) == EventsFrom([], full + tail);
    }
  }

  /** A piece without double line feeds is one event, whatever follows it. */
  lemma PieceEvents(piece: string, more: seq<string>)
    requires NoDouble(piece) && (piece != "" ==> piece[|piece| - 1] != '\n')
    ensures EventsFrom([], Lines(piece) + ([""] + more)) == Dispatched(piece) + EventsFrom([], more)
    ensures EventsFrom([], Lines(piece)) == Dispatched(piece)
  {
    var lines := Lines(piece);
    OnlyFirstEmpty(piece);
    assert NoEmpty(Full(lines)) by {
      assert lines == [lines[0]] + lines[1..];
    }
    FullReads(lines);
    assert Dispatched(piece) == EventOf(lines);
    hide Lines, Dispatched, EventOf, EventsFrom, NoDouble, NoEmpty, Full;
    FullEvents(lines, [""] + more);
    FullEvents(lines, []);
    EventsAtEnd(Full(lines), more);
    assert lines + [] == lines;
  }

  lemma NothingDispatched()
    ensures Dispatched("") == []
  {
    assert [""][..0] == [];
    assert ReadLines([""]) == Fields("message", []);
  }

  lemma {:induction false} LastPiece(text: string)
    requires NoDouble(text)
    ensures var trailing := TrimNewlines(text);
      (if trailing == "" then [] else Dispatched(trailing)) == EventsFrom([], Lines(text))
  {
    hide Lines, EventsFrom, IndexOf, Dispatched;
    var n := |text|;
    if n > 0 && text[n - 1] == '\n' {
      var piece := text[..n - 1];
      assert piece != "" ==> piece[|piece| - 1] == text[n - 2] != '\n';
      assert TrimNewlines(text) == piece;
      assert NoDouble(piece);
      PieceEvents(piece, []);
      LinesOfTwo(piece, "");
      LinesFirst("", "");
      assert text == piece + "\n" + "";
      EventsAtEnd([], []);
      assert [""] + [] == [""];
      NothingDispatched();
    } else {
      PieceEvents(text, []);
      NothingDispatched();
    }
  }

  /** The whole reader: paragraphs of the text's lines, each parsed on its own. */
  lemma {:induction false} FlushedIsEvents(text: string)
    ensures Flushed(text) == EventsFrom([], Lines(text))
    decreases |text|
  {
    hide Lines, EventsFrom, Dispatched, IndexOf, Drained;
    var k := IndexOf(text, "\n\n");
    NoDoubleIs(text, k);
    if k < 0 {
      DrainedNone(text);
      LastPiece(text);
    } else {
      var a, b := text[..k], text[k + 2..];
      FlushedIsEvents(b);
      DrainedFound(text, k);
      PieceEvents(a, Lines(b));
      LinesOfTwo(a, "\n" + b);
      LinesOfTwo("", b);
      LinesFirst("", "");
      assert "" + "\n" + b == "\n" + b;
      assert Lines(text) == Lines(a) + ([""] + Lines(b));
    }
  }

  lemma {:induction false} RestHasNoEnd(text: string)
    ensures IndexOf(Drained(text).rest, "\n\n") < 0
    decreases |text|
  {
    hide Dispatched, IndexOf, Drained;
    var k := IndexOf(text, "\n\n");
    if k < 0 {
      DrainedNone(text);
    } else {
      DrainedFound(text, k);
      RestHasNoEnd(text[k + 2..]);
    }
  }

  /** What a response dispatches, for any chunks: the events of the lines of the chunks,
      each normalised by itself. */
  lemma EventsOfChunks(chunks: seq<string>)
    ensures EventsOf(chunks) == EventsFrom([], Lines(Concat(Normalized(chunks))))
  {
    hide Fed, Drained, Dispatched, IndexOf, Lines, EventsFrom, Concat, Normalized;
    FedIsDrained(chunks);
    var text := Concat(Normalized(chunks));
    RestHasNoEnd(text);
    DrainedNone(Drained(text).rest);
    FlushedIsEvents(text);
    assert forall x: seq<Frame> :: [] + x == x;
  }

  // -------------------------------------------------- one event in parts

  /** The lines of all the parts together. */
  function Whole(parts: seq<seq<string>>): seq<string> {
    if parts == [] then [] else Whole(parts[..|parts| - 1]) + parts[|parts| - 1]
  }

  /** What is dispatched when every part ends in an empty line. */
  function EventsOfParts(parts: seq<seq<string>>): seq<Frame> {
    if parts == [] then []
    else EventsOfParts(parts[..|parts| - 1]) + EventOf(parts[|parts| - 1])
  }

  /** Every part that has data has all the data of the event, and the name that the whole
      event has. */
  ghost predicate Kept(parts: seq<seq<string>>) {
    var whole := ReadLines(Whole(parts));
    forall i :: 0 <= i < |parts| && ReadLines(parts[i]).data != [] ==>
      ReadLines(parts[i]).data == whole.data && ReadLines(parts[i]).event == whole.event
  }

  lemma PartsStep(init: seq<seq<string>>, last: seq<string>)
    ensures Whole(init + [last]) == Whole(init) + last
    ensures EventsOfParts(init + [last]) == EventsOfParts(init) + EventOf(last)
  {
    assert (init + [last])[..|init|] == init;
  }

  lemma {:induction false} DataOfBoth(first: seq<string>, second: seq<string>)
    ensures ReadLines(first + second).data == ReadLines(first).data + ReadLines(second).data
    decreases |second|
  {
    if second == [] {
      assert first + second == first;
    } else {
      var n := |second| - 1;
      DataOfBoth(first, second[..n]);
      assert (first + second)[..|first| + n] == first + second[..n];
    }
  }

  lemma {:induction false} EventsMeanData(parts: seq<seq<string>>)
    ensures EventsOfParts(parts) == [] <==> ReadLines(Whole(parts)).data == []
  {
    if parts == [] {
    } else {
      var n := |parts| - 1;
      EventsMeanData(parts[..n]);
      DataOfBoth(Whole(parts[..n]), parts[n]);
    }
  }

  /** What the events of the parts say about part `i`, which has data. */
  ghost predicate DataTold(parts: seq<seq<string>>, i: nat)
    requires i < |parts|
  {
    var own, data := ReadLines(parts[i]).data, ReadLines(Whole(parts)).data;
    var events := EventsOfParts(parts);
    && events != []
    && (|events| == 1 ==> events == EventOf(parts[i]) && data == own)
    && (|events| > 1 ==> |data| > |own|)
  }

  lemma DataOfLast(init: seq<seq<string>>, last: seq<string>)
    requires ReadLines(last).data != []
    ensures DataTold(init + [last], |init|)
  {
    PartsStep(init, last);
    DataOfBoth(Whole(init), last);
    EventsMeanData(init);
    hide ReadLines, Whole, EventsOfParts, Join;
    assert [] + EventOf(last) == EventOf(last) && [] + ReadLines(last).data == ReadLines(last).data;
  }

  lemma DataOfEarlier(init: seq<seq<string>>, last: seq<string>, i: nat)
    requires i < |init| && DataTold(init, i)
    ensures DataTold(init + [last], i)
  {
    PartsStep(init, last);
    DataOfBoth(Whole(init), last);
    hide ReadLines, Whole, EventsOfParts, Join;
    assert EventsOfParts(init) + [] == EventsOfParts(init);
    assert ReadLines(Whole(init)).data + [] == ReadLines(Whole(init)).data;
  }

  lemma {:induction false} DataOfPart(parts: seq<seq<string>>, i: nat)
    requires i < |parts| && ReadLines(parts[i]).data != []
    ensures DataTold(parts, i)
    decreases |parts|
  {
    hide DataTold, ReadLines;
    var n := |parts| - 1;
    assert parts == parts[..n] + [parts[n]];
    if i == n {
      DataOfLast(parts[..n], parts[n]);
    } else {
      DataOfPart(parts[..n], i);
      DataOfEarlier(parts[..n], parts[n], i);
    }
  }

  lemma {:induction false} NoDataNoEvents(parts: seq<seq<string>>)
    requires forall i :: 0 <= i < |parts| ==> ReadLines(parts[i]).data == []
    ensures EventsOfParts(parts) == []
  {
    hide ReadLines;
    if parts == [] {
    } else {
      var n := |parts| - 1;
      assert forall i :: 0 <= i < n ==> parts[..n][i] == parts[i];
      NoDataNoEvents(parts[..n]);
    }
  }

  /** The parts dispatch at least as much as the event in one, and the same exactly if they
      are kept. */
  lemma KeptExactly(parts: seq<seq<string>>)
    ensures EventsOfParts(parts) == EventOf(Whole(parts)) <==> Kept(parts)
    ensures |EventsOfParts(parts)| >= |EventOf(Whole(parts))|
  {
    EventsMeanData(parts);
    hide ReadLines, Whole, EventsOfParts, Join;
    if i :| 0 <= i < |parts| && ReadLines(parts[i]).data != [] {
      forall i | 0 <= i < |parts| && ReadLines(parts[i]).data != []
        ensures EventsOfParts(parts) == EventOf(Whole(parts)) <==>
          && ReadLines(parts[i]).data == ReadLines(Whole(parts)).data
          && ReadLines(parts[i]).event == ReadLines(Whole(parts)).event
      {
        DataOfPart(parts, i);
      }
    } else {
      NoDataNoEvents(parts);
    }
  }

  // -------------------------------------------------------- marked lines

  /** A line of a response, or the mark `None` where a chunk boundary cuts a line end. */
  type Marked = Option<string>

  /** The lines that the reader sees: a cut line end is two, with an empty line between. */
  function LinesCut(lines: seq<Marked>): seq<string> {
    if lines == [] then []
    else [if lines[0] == None then "" else lines[0].value] + LinesCut(lines[1..])
  }

  /** The lines of the response in one chunk. */
  function LinesUncut(lines: seq<Marked>): seq<string> {
    if lines == [] then []
    else (if lines[0] == None then [] else [lines[0].value]) + LinesUncut(lines[1..])
  }

  function WithLine(open: seq<seq<string>>, line: string): seq<seq<string>>
    requires open != []
  {
    open[..|open| - 1] + [open[|open| - 1] + [line]]
  }

  /** Every event keeps to one part.  `open` are the parts of the event so far, and a mark
      begins a new one. */
  ghost predicate AllKept(open: seq<seq<string>>, lines: seq<Marked>)
    requires open != []
    decreases |lines|
  {
    if lines == [] then Kept(open)
    else if lines[0] == None then AllKept(open + [[]], lines[1..])
    else if lines[0] == Some("") then Kept(open) && AllKept([[]], lines[1..])
    else AllKept(WithLine(open, lines[0].value), lines[1..])
  }

  lemma BothSame(x: seq<Frame>, y: seq<Frame>, xs: seq<Frame>, ys: seq<Frame>)
    requires |x| >= |y| && |xs| >= |ys|
    ensures |x + xs| >= |y + ys|
    ensures x + xs == y + ys <==> x == y && xs == ys
  {
    if x + xs == y + ys {
      assert (x + xs)[..|x|] == x && (y + ys)[..|y|] == y;
      assert (x + xs)[|x|..] == xs && (y + ys)[|y|..] == ys;
    }
  }

  lemma NoParts()
    ensures EventsOfParts([]) == [] && Whole([[]]) == [] && Whole([]) == []
  {
    var none: seq<seq<string>> := [];
    assert [[]][..0] == none;
  }

  /** What the reader dispatches for the parts and lines, and for the same in one chunk. */
  function Seen(open: seq<seq<string>>, lines: seq<Marked>): seq<Frame>
    requires open != []
  {
    EventsOfParts(open[..|open| - 1]) + EventsFrom(open[|open| - 1], LinesCut(lines))
  }

  function Meant(open: seq<seq<string>>, lines: seq<Marked>): seq<Frame> {
    EventsFrom(Whole(open), LinesUncut(lines))
  }

  lemma SeenAtEnd(open: seq<seq<string>>)
    requires open != []
    ensures Seen(open, []) == EventsOfParts(open)
    ensures Meant(open, []) == EventOf(Whole(open))
  {
    hide EventOf;
  }

  lemma SeenAtMark(open: seq<seq<string>>, lines: seq<Marked>)
    requires open != [] && lines != [] && lines[0] == None
    ensures Seen(open, lines) == Seen(open + [[]], lines[1..])
    ensures Meant(open, lines) == Meant(open + [[]], lines[1..])
  {
    var n, cut := |open| - 1, LinesCut(lines[1..]);
    PartsStep(open, []);
    hide Whole, EventOf, EventsFrom;
    assert (open + [[]])[..n + 1] == open;
    assert Whole(open) + [] == Whole(open);
    EventsAtEnd(open[n], cut);
    Regroup(EventsOfParts(open[..n]), EventOf(open[n]), EventsFrom([], cut));
    assert [] + LinesUncut(lines[1..]) == LinesUncut(lines[1..]);
  }

  lemma SeenAtEmpty(open: seq<seq<string>>, lines: seq<Marked>)
    requires open != [] && lines != [] && lines[0] == Some("")
    ensures Seen(open, lines) == EventsOfParts(open) + Seen([[]], lines[1..])
    ensures Meant(open, lines) == EventOf(Whole(open)) + Meant([[]], lines[1..])
  {
    var n, cut := |open| - 1, LinesCut(lines[1..]);
    NoParts();
    var none: seq<seq<string>> := [];
    assert [[]][..0] == none;
    hide Whole, EventOf, EventsFrom;
    EventsAtEnd(open[n], cut);
    EventsAtEnd(Whole(open), LinesUncut(lines[1..]));
    Regroup(EventsOfParts(open[..n]), EventOf(open[n]), EventsFrom([], cut));
    assert [] + EventsFrom([], cut) == EventsFrom([], cut);
  }

  lemma SeenAtLine(open: seq<seq<string>>, lines: seq<Marked>)
    requires open != [] && lines != [] && lines[0].Some? && lines[0].value != ""
    ensures Seen(open, lines) == Seen(WithLine(open, lines[0].value), lines[1..])
    ensures Meant(open, lines) == Meant(WithLine(open, lines[0].value), lines[1..])
  {
    var n, line := |open| - 1, lines[0].value;
    var init, last := open[..n], open[n];
    assert open == init + [last];
    PartsStep(init, last);
    PartsStep(init, last + [line]);
    hide Whole, EventOf, EventsFrom, EventsOfParts;
    assert (init + [last + [line]])[..n] == init;
    Regroup(Whole(init), last, [line]);
    EventsBehindFull(last, [line], LinesCut(lines[1..]));
    EventsBehindFull(Whole(open), [line], LinesUncut(lines[1..]));
  }

  lemma {:induction false} AllKeptExactly(open: seq<seq<string>>, lines: seq<Marked>)
    requires open != []
    ensures |Seen(open, lines)| >= |Meant(open, lines)|
    ensures Seen(open, lines) == Meant(open, lines) <==> AllKept(open, lines)
    decreases |lines|
  {
    hide Seen, Meant, Whole, EventsOfParts, EventOf, Kept;
    if lines == [] {
      SeenAtEnd(open);
      KeptExactly(open);
    } else if lines[0] == None {
      SeenAtMark(open, lines);
      AllKeptExactly(open + [[]], lines[1..]);
    } else if lines[0] == Some("") {
      SeenAtEmpty(open, lines);
      KeptExactly(open);
      AllKeptExactly([[]], lines[1..]);
      BothSame(EventsOfParts(open), EventOf(Whole(open)), Seen([[]], lines[1..]), Meant([[]], lines[1..]));
    } else {
      SeenAtLine(open, lines);
      AllKeptExactly(WithLine(open, lines[0].value), lines[1..]);
    }
  }

  // ------------------------------------------------------- cut line ends

  /** The two texts end alike, as far as a carriage return goes. */
  predicate EndAlike(a: string, b: string) {
    (a != "" && a[|a| - 1] == '\r') <==> (b != "" && b[|b| - 1] == '\r')
  }

  lemma EndsOf(text: string, last: string, chunk: string)
    requires EndAlike(text, last)
    ensures EndAlike(text + chunk, last + chunk)
    ensures SplitsCrLf(text, chunk) ==> EndAlike(text + chunk, chunk[1..])
  {
    if chunk == "" {
      assert text + chunk == text && last + chunk == last;
    }
  }

  /** The texts between the line ends that chunk boundaries cut: all but the last, and the last. */
  function Pieces(chunks: seq<string>): (pieces: (seq<string>, string))
    ensures EndAlike(Concat(chunks), pieces.1)
  {
    if chunks == [] then ([], "")
    else
      var n := |chunks| - 1;
      var (front, last) := Pieces(chunks[..n]);
      EndsOf(Concat(chunks[..n]), last, chunks[n]);
      if SplitsCrLf(Concat(chunks[..n]), chunks[n]) then (front + [last[..|last| - 1]], chunks[n][1..])
      else (front, last + chunks[n])
  }

  /** The normalised pieces, each with the given line end behind it. */
  function Front(pieces: seq<string>, end: string): string {
    if pieces == [] then ""
    else Front(pieces[..|pieces| - 1], end) + NormalizeLineEnds(pieces[|pieces| - 1]) + end
  }

  /** The normalised pieces with the given line end between them. */
  function Joined(front: seq<string>, last: string, end: string): string {
    Front(front, end) + NormalizeLineEnds(last)
  }

  function Unmarked(lines: seq<string>): seq<Marked> {
    if lines == [] then [] else [Some(lines[0])] + Unmarked(lines[1..])
  }

  /** The lines of the pieces, each with a mark for the cut line end behind it. */
  function FrontLines(pieces: seq<string>): seq<Marked> {
    if pieces == [] then []
    else FrontLines(pieces[..|pieces| - 1]) + Unmarked(Lines(NormalizeLineEnds(pieces[|pieces| - 1]))) + [None]
  }

  /** The lines of a response, with a mark for every cut line end. */
  function LinesOf(chunks: seq<string>): seq<Marked> {
    var (front, last) := Pieces(chunks);
    FrontLines(front) + Unmarked(Lines(NormalizeLineEnds(last)))
  }

  lemma OneMarked(x: Marked, more: seq<Marked>)
    ensures LinesCut([x] + more) == [if x == None then "" else x.value] + LinesCut(more)
    ensures LinesUncut([x] + more) == (if x == None then [] else [x.value]) + LinesUncut(more)
  {
    assert ([x] + more)[1..] == more;
  }

  lemma {:induction false} LinesInTwo(first: seq<Marked>, second: seq<Marked>)
    ensures LinesCut(first + second) == LinesCut(first) + LinesCut(second)
    ensures LinesUncut(first + second) == LinesUncut(first) + LinesUncut(second)
  {
    if first == [] {
      assert first + second == second;
      assert forall x: seq<string> :: [] + x == x;
    } else {
      var x, rest := first[0], first[1..];
      LinesInTwo(rest, second);
      OneMarked(x, rest + second);
      assert [x] + rest == first;
      Regroup([x], rest, second);
      hide LinesCut, LinesUncut;
      OneMarked(x, rest);
      Regroup([if x == None then "" else x.value], LinesCut(rest), LinesCut(second));
      Regroup(if x == None then [] else [x.value], LinesUncut(rest), LinesUncut(second));
    }
  }

  lemma {:induction false} UnmarkedLines(lines: seq<string>)
    ensures LinesCut(Unmarked(lines)) == lines && LinesUncut(Unmarked(lines)) == lines
  {
    if lines == [] {
    } else {
      UnmarkedLines(lines[1..]);
      OneMarked(Some(lines[0]), Unmarked(lines[1..]));
      hide LinesCut, LinesUncut;
      assert lines == [lines[0]] + lines[1..];
    }
  }

  lemma MarkAlone()
    ensures LinesCut([None]) == [""] && LinesUncut([None]) == []
  {
  }

  lemma MarkedPiece(lines: seq<string>)
    ensures LinesCut(Unmarked(lines) + [None]) == lines + [""]
    ensures LinesUncut(Unmarked(lines) + [None]) == lines
  {
    UnmarkedLines(lines);
    LinesInTwo(Unmarked(lines), [None]);
    MarkAlone();
    hide LinesCut, LinesUncut;
    assert lines + [] == lines;
  }

  /** Lines in front of a line end, or of two, and the lines behind. */
  lemma LinesAcross(a: string, b: string, c: string)
    ensures Lines(a + b + "\n" + c) == Lines(a + b) + Lines(c)
    ensures Lines(a + b + "\n\n" + c) == Lines(a + b) + [""] + Lines(c)
  {
    LinesOfTwo(a + b, c);
    LinesOfTwo(a + b, "\n" + c);
    LinesOfTwo("", c);
    LinesFirst("", "");
    hide Lines;
    assert "" + "\n" + c == "\n" + c;
    assert a + b + "\n\n" + c == a + b + "\n" + ("\n" + c);
    Regroup(Lines(a + b), [""], Lines(c));
  }

  /** The marked lines are the lines of the joined texts. */
  lemma {:induction false} LinesOfJoined(front: seq<string>, last: string)
    ensures var lines := FrontLines(front) + Unmarked(Lines(NormalizeLineEnds(last)));
      LinesCut(lines) == Lines(Joined(front, last, "\n\n")) && LinesUncut(lines) == Lines(Joined(front, last, "\n"))
    decreases |front|
  {
    hide Lines, NormalizeLineEnds, LinesCut, LinesUncut, Unmarked;
    var x := NormalizeLineEnds(last);
    UnmarkedLines(Lines(x));
    if front == [] {
      assert [] + Unmarked(Lines(x)) == Unmarked(Lines(x));
      assert "" + x == x;
    } else {
      var n := |front| - 1;
      var before, y := front[..n], NormalizeLineEnds(front[n]);
      LinesOfJoined(before, front[n]);
      MarkedPiece(Lines(y));
      LinesInTwo(FrontLines(before), Unmarked(Lines(y)));
      UnmarkedLines(Lines(y));
      LinesInTwo(FrontLines(before) + Unmarked(Lines(y)), [None]);
      MarkAlone();
      LinesInTwo(FrontLines(front), Unmarked(Lines(x)));
      LinesAcross(Front(before, "\n"), y, x);
      LinesAcross(Front(before, "\n\n"), y, x);
    }
  }

  lemma ChunkStep(chunks: seq<string>, last: string)
    ensures Concat(chunks + [last]) == Concat(chunks) + last
    ensures Concat(Normalized(chunks + [last])) == Concat(Normalized(chunks)) + NormalizeLineEnds(last)
  {
    hide NormalizeLineEnds;
    assert (chunks + [last])[..|chunks|] == chunks;
    var before := Normalized(chunks);
    assert Normalized(chunks + [last]) == before + [NormalizeLineEnds(last)];
    assert (before + [NormalizeLineEnds(last)])[..|before|] == before;
  }

  lemma NormalOfHalves(q: string)
    ensures NormalizeLineEnds("\r") == "\n"
    ensures NormalizeLineEnds("\n" + q) == "\n" + NormalizeLineEnds(q)
    ensures NormalizeLineEnds("\r" + ("\n" + q)) == "\n" + NormalizeLineEnds(q)
  {
    NormalizeStep("\r");
    NormalizeStep("\n" + q);
    NormalizeStep("\r" + ("\n" + q));
    NormalizeNothing();
    hide NormalizeLineEnds;
    assert ("\n" + q)[1..] == q;
    assert ("\r" + ("\n" + q))[2..] == q;
  }

  lemma NormalOfCut(a: string, b: string)
    requires SplitsCrLf(a, b)
    ensures var x, y := NormalizeLineEnds(a[..|a| - 1]), NormalizeLineEnds(b[1..]);
      && NormalizeLineEnds(a) == x + "\n" && NormalizeLineEnds(b) == "\n" + y
      && NormalizeLineEnds(a + b) == x + "\n" + y
  {
    hide NormalizeLineEnds;
    var p, q := a[..|a| - 1], b[1..];
    assert a == p + "\r" && b == "\n" + q;
    NormalOfHalves(q);
    NormalizeInPieces(p, "\r");
    NormalizeInPieces(p, "\r" + b);
    Regroup(p, "\r", b);
    Regroup(NormalizeLineEnds(p), "\n", NormalizeLineEnds(q));
  }

  /** A chunk that does not cut a line end adds to the last piece. */
  lemma WholeStep(text: string, front: seq<string>, last: string, chunk: string, seen: string)
    requires !SplitsCrLf(text, chunk) && EndAlike(text, last)
    requires seen == Joined(front, last, "\n\n") && NormalizeLineEnds(text) == Joined(front, last, "\n")
    ensures seen + NormalizeLineEnds(chunk) == Joined(front, last + chunk, "\n\n")
    ensures NormalizeLineEnds(text + chunk) == Joined(front, last + chunk, "\n")
  {
    NormalizeInPieces(text, chunk);
    NormalizeInPieces(last, chunk);
    hide NormalizeLineEnds, Front;
    var x, y := NormalizeLineEnds(last), NormalizeLineEnds(chunk);
    Regroup(Front(front, "\n"), x, y);
    Regroup(Front(front, "\n\n"), x, y);
  }

  lemma TwoEnds(f: string, x: string, y: string)
    ensures f + (x + "\n") + ("\n" + y) == f + x + "\n\n" + y
    ensures f + (x + "\n") + y == f + x + "\n" + y
  {
    Regroup(f, x, "\n");
    Regroup(f + x, "\n", "\n" + y);
    Regroup("\n", "\n", y);
    Regroup(f + x, "\n\n", y);
  }

  lemma FrontStep(front: seq<string>, piece: string, end: string)
    ensures Front(front + [piece], end) == Front(front, end) + NormalizeLineEnds(piece) + end
  {
    hide NormalizeLineEnds;
    assert (front + [piece])[..|front|] == front;
  }

  /** A cut line end is one line feed in the text and two in what the reader sees. */
  lemma CutStep(text: string, front: seq<string>, last: string, chunk: string, seen: string)
    requires SplitsCrLf(text, chunk) && EndAlike(text, last)
    requires seen == Joined(front, last, "\n\n") && NormalizeLineEnds(text) == Joined(front, last, "\n")
    ensures var more := front + [last[..|last| - 1]];
      && seen + NormalizeLineEnds(chunk) == Joined(more, chunk[1..], "\n\n")
      && NormalizeLineEnds(text + chunk) == Joined(more, chunk[1..], "\n")
  {
    NormalOfCut(text, chunk);
    NormalOfCut(last, chunk);
    hide NormalizeLineEnds, Front, SplitsCrLf, EndAlike;
    var p, q := last[..|last| - 1], chunk[1..];
    FrontStep(front, p, "\n\n");
    FrontStep(front, p, "\n");
    TwoEnds(Front(front, "\n\n"), NormalizeLineEnds(p), NormalizeLineEnds(q));
    TwoEnds(Front(front, "\n"), NormalizeLineEnds(p), NormalizeLineEnds(q));
  }

  lemma NoChunks()
    ensures Concat(Normalized([])) == "" == NormalizeLineEnds(Concat([]))
    ensures forall end :: Joined([], "", end) == ""
  {
  }

  /** Both texts by the pieces between the cut line ends. */
  lemma {:induction false} PiecesJoin(chunks: seq<string>)
    ensures var (front, last) := Pieces(chunks);
      && Concat(Normalized(chunks)) == Joined(front, last, "\n\n")
      && NormalizeLineEnds(Concat(chunks)) == Joined(front, last, "\n")
  {
    hide NormalizeLineEnds, Joined, Concat, Normalized;
    if chunks == [] {
      NoChunks();
    } else {
      var n := |chunks| - 1;
      var text, chunk := Concat(chunks[..n]), chunks[n];
      var (front, last) := Pieces(chunks[..n]);
      PiecesJoin(chunks[..n]);
      assert chunks[..n] + [chunk] == chunks;
      ChunkStep(chunks[..n], chunk);
      hide EndAlike;
      if SplitsCrLf(text, chunk) {
        CutStep(text, front, last, chunk, Concat(Normalized(chunks[..n])));
      } else {
        WholeStep(text, front, last, chunk, Concat(Normalized(chunks[..n])));
      }
    }
  }

  lemma OneChunk(text: string)
    ensures Concat(Normalized([text])) == NormalizeLineEnds(text)
  {
    ChunkStep([], text);
    NoChunks();
    hide NormalizeLineEnds;
    assert [] + [text] == [text];
    assert "" + NormalizeLineEnds(text) == NormalizeLineEnds(text);
  }

  lemma NothingOpen(lines: seq<Marked>)
    ensures Seen([[]], lines) == EventsFrom([], LinesCut(lines))
    ensures Meant([[]], lines) == EventsFrom([], LinesUncut(lines))
  {
    NoParts();
    hide EventsFrom, Whole;
    var none: seq<seq<string>> := [];
    assert [[]][..0] == none;
    assert [] + EventsFrom([], LinesCut(lines)) == EventsFrom([], LinesCut(lines));
  }

  /** What a response dispatches is what it would in one chunk, exactly if every event keeps
      to one of the parts that the cut line ends make of it. */
  lemma {:induction false} CutsExactly(chunks: seq<string>)
    ensures EventsOf(chunks) == EventsOf([Concat(chunks)]) <==> AllKept([[]], LinesOf(chunks))
  {
    hide EventsOf, EventsFrom, Lines, AllKept, Concat, Normalized, NormalizeLineEnds, Joined, Pieces, FrontLines;
    var text := Concat(chunks);
    EventsOfChunks(chunks);
    EventsOfChunks([text]);
    PiecesJoin(chunks);
    var (front, last) := Pieces(chunks);
    LinesOfJoined(front, last);
    OneChunk(text);
    AllKeptExactly([[]], LinesOf(chunks));
    NothingOpen(LinesOf(chunks));
  }

  // ------------------------------------------------------------ examples

  lemma DataLineRead(value: string)
    ensures ReadLines(["data: " + value]).data != []
  {
    var line: string := "data: " + value;
    var none: seq<string> := [];
    assert [line][..0] == none;
    assert "data:" <= line && line[0] != ':' && !("event:" <= line);
  }

  lemma TwoDataLines(x: string, y: string)
    requires ReadLines([x]).data != [] && ReadLines([y]).data != []
    ensures !Kept([[x], [y]])
  {
    var parts := [[x], [y]];
    PartsStep([], [x]);
    PartsStep([[x]], [y]);
    assert [] + [[x]] == [[x]] && [[x]] + [[y]] == parts;
    DataOfBoth([x], [y]);
    hide ReadLines, Whole;
    NoParts();
    assert [] + [x] == [x];
    assert parts[0] == [x];
  }

  lemma PiecesStep(chunks: seq<string>, chunk: string)
    ensures var (front, last) := Pieces(chunks);
      Pieces(chunks + [chunk]) == (
        if SplitsCrLf(Concat(chunks), chunk) then (front + [last[..|last| - 1]], chunk[1..])
        else (front, last + chunk))
    ensures Concat(chunks + [chunk]) == Concat(chunks) + chunk
  {
    assert (chunks + [chunk])[..|chunks|] == chunks;
  }

  /** Two chunks and what they are cut into. */
  lemma TwoPieces(x: string, y: string)
    ensures Pieces([x + "\r", "\n" + y]) == ([x], y)
    ensures Concat([x + "\r", "\n" + y]) == x + "\r" + ("\n" + y)
  {
    var a, b := x + "\r", "\n" + y;
    PiecesStep([], a);
    PiecesStep([a], b);
    assert [] + [a] == [a] && [a] + [b] == [a, b];
    assert "" + a == a && [] + [x] == [x];
  }

  /** A line, and a line with the blank line that ends its event. */
  lemma EndingLines(line: string)
    requires OneLine(line)
    ensures Unmarked(Lines(NormalizeLineEnds(line))) == [Some(line)]
    ensures Unmarked(Lines(NormalizeLineEnds(line + "\n\n"))) == [Some(line)] + ([Some("")] + [Some("")])
  {
    NormalizePlain(line);
    NormalizePlain(line + "\n\n");
    LinesFirst(line, "\n");
    LinesFirst("", "");
    hide NormalizeLineEnds, Lines;
    assert line + "\n\n" == line + "\n" + "\n";
    assert "" + "\n" + "" == "\n";
    assert Lines(line + "\n\n") == [line, "", ""];
    assert Unmarked([line]) == [Some(line)] + Unmarked([]);
    assert Unmarked([""]) == [Some("")] + Unmarked([]);
    assert Unmarked(["", ""]) == [Some("")] + Unmarked([""]);
    assert Unmarked([line, "", ""]) == [Some(line)] + Unmarked(["", ""]);
  }

  lemma FrontOfOne(x: string)
    ensures FrontLines([x]) == Unmarked(Lines(NormalizeLineEnds(x))) + [None]
  {
    hide NormalizeLineEnds, Lines, Unmarked;
    var none: seq<string> := [];
    assert [x][..0] == none;
  }

  lemma LinesOfCut(x: string, y: string)
    requires OneLine(x) && OneLine(y)
    ensures LinesOf([x + "\r", "\n" + (y + "\n\n")]) ==
      [Some(x)] + ([None] + ([Some(y)] + ([Some("")] + [Some("")])))
  {
    TwoPieces(x, y + "\n\n");
    EndingLines(x);
    EndingLines(y);
    FrontOfOne(x);
    hide Pieces, NormalizeLineEnds, Lines, Unmarked;
  }

  lemma KeptStep(open: seq<seq<string>>, x: Marked, rest: seq<Marked>)
    requires open != []
    ensures AllKept(open, [x] + rest) <==> (
      if x == None then AllKept(open + [[]], rest)
      else if x == Some("") then Kept(open) && AllKept([[]], rest)
      else AllKept(WithLine(open, x.value), rest))
  {
    hide Kept;
    assert ([x] + rest)[1..] == rest;
  }

  lemma EndOfEvent(open: seq<seq<string>>)
    requires open != []
    ensures AllKept(open, [Some("")] + [Some("")]) <==> Kept(open)
  {
    KeptStep(open, Some(""), [Some("")]);
    KeptStep([[]], Some(""), []);
    assert Kept([[]]);
    hide Kept;
    assert [Some("")] + [] == [Some("")];
  }

  lemma EventInTwo(x: string, y: string)
    requires x != "" && y != ""
    ensures AllKept([[]], [Some(x)] + ([None] + ([Some(y)] + ([Some("")] + [Some("")])))) <==> Kept([[x], [y]])
  {
    hide Kept, AllKept;
    var end := [Some("")] + [Some("")];
    KeptStep([[]], Some(x), [None] + ([Some(y)] + end));
    KeptStep([[x]], None, [Some(y)] + end);
    KeptStep([[x], []], Some(y), end);
    EndOfEvent([[x], [y]]);
    var none: seq<seq<string>> := [];
    assert [[]][..0] == none && [] + [x] == [x];
    assert WithLine([[]], x) == [[x]];
    assert [[x]] + [[]] == [[x], []];
    assert [[x], []][..1] == [[x]] && [] + [y] == [y];
    assert WithLine([[x], []], y) == [[x], [y]];
  }

  /** An event of two lines with the line end between them cut. */
  lemma EventCut(x: string, y: string)
    requires OneLine(x) && OneLine(y) && x != "" && y != ""
    ensures var a, b := x + "\r", "\n" + (y + "\n\n");
      EventsOf([a, b]) == EventsOf([a + b]) <==> Kept([[x], [y]])
  {
    hide EventsOf, LinesOf, Kept, AllKept, Pieces, Concat, OneLine;
    EventInTwo(x, y);
    LinesOfCut(x, y);
    TwoPieces(x, y + "\n\n");
    CutsExactly([x + "\r", "\n" + (y + "\n\n")]);
  }

  /** A boundary that matters: two frames are dispatched where the uncut text has one. */
  lemma CutMatters()
    ensures var a, b := "data: a\r", "\ndata: b\n\n";
      SplitsCrLf(a, b) && EventsOf([a, b]) != EventsOf([a + b])
  {
    hide EventsOf, Kept, ReadLines;
    var x, y: string := "data: a", "data: b";
    assert "data: " + "a" == x && "data: " + "b" == y;
    assert x + "\r" == "data: a\r" && "\n" + (y + "\n\n") == "\ndata: b\n\n";
    DataLineRead("a");
    DataLineRead("b");
    TwoDataLines(x, y);
    EventCut(x, y);
  }

  lemma RenamedReads(e: string, d: string, m: string)
    requires e == "event: a" && d == "data: 1" && m == "event: message"
    ensures ReadLines([e]).data == [] && ReadLines([m]).data == []
    ensures ReadLines([d]) == Fields("message", ["1"])
    ensures ReadLines([e, d]) == Fields("a", ["1"])
    ensures ReadLines([e, d, m]) == Fields("message", ["1"])
  {
    hide ReadLine;
    assert e == "event: " + "a" && d == "data: " + "1" && m == "event: " + "message";
    LineMeans(Fields("message", []), "a");
    LineMeans(Fields("message", []), "1");
    LineMeans(Fields("message", []), "message");
    LineMeans(Fields("a", []), "1");
    LineMeans(Fields("a", ["1"]), "message");
    assert ReadLines([]) == Fields("message", []);
    hide ReadLines;
    ReadNext([], e);
    ReadNext([], d);
    ReadNext([], m);
    ReadNext([e], d);
    ReadNext([e, d], m);
    assert [] + [e] == [e] && [] + [d] == [d] && [] + [m] == [m];
    assert [e] + [d] == [e, d] && [e, d] + [m] == [e, d, m];
  }

  lemma WholeOf(x: seq<string>, y: seq<string>, z: seq<string>)
    ensures Whole([x, y]) == x + y && Whole([x, y, z]) == x + y + z
  {
    NoParts();
    PartsStep([], x);
    PartsStep([x], y);
    PartsStep([x, y], z);
    hide Whole;
    assert [] + [x] == [x] && [x] + [y] == [x, y] && [x, y] + [z] == [x, y, z];
    assert [] + x == x;
  }

  /** A name, data, and the default name again: alone, the data has the name of the whole, but
      not together with the name in front. */
  lemma RenamedEvent(e: string, d: string, m: string)
    requires e == "event: a" && d == "data: 1" && m == "event: message"
    ensures Kept([[e], [d], [m]]) && !Kept([[e, d], [m]])
  {
    RenamedReads(e, d, m);
    WholeOf([e], [d], [m]);
    WholeOf([e, d], [m], []);
    hide ReadLines, Whole;
    assert [e] + [d] + [m] == [e, d, m] && [e, d] + [m] == [e, d, m];
    var parts := [[e, d], [m]];
    assert ReadLines(parts[0]).event != ReadLines(Whole(parts)).event;
  }

  lemma LineAdded(init: seq<seq<string>>, last: seq<string>, line: string)
    ensures WithLine(init + [last], line) == init + [last + [line]]
  {
  }

  lemma EventInThree(x: string, y: string, z: string)
    requires x != "" && y != "" && z != ""
    ensures AllKept([[]], [Some(x)] + ([None] + ([Some(y)] + ([None] + ([Some(z)] + ([Some("")] + [Some("")]))))))
      <==> Kept([[x], [y], [z]])
    ensures AllKept([[]], [Some(x)] + ([Some(y)] + ([None] + ([Some(z)] + ([Some("")] + [Some("")])))))
      <==> Kept([[x, y], [z]])
  {
    hide Kept, AllKept, WithLine;
    var end := [Some("")] + [Some("")];
    var last := [None] + ([Some(z)] + end);
    var none: seq<seq<string>> := [];
    assert none + [[]] == [[]] && none + [[x]] == [[x]] && none + [[x, y]] == [[x, y]];
    assert [] + [x] == [x] && [] + [y] == [y] && [] + [z] == [z] && [x] + [y] == [x, y];
    LineAdded(none, [], x);
    LineAdded(none, [x], y);
    KeptStep([[]], Some(x), [None] + ([Some(y)] + last));
    KeptStep([[x]], None, [Some(y)] + last);
    assert [[x]] + [[]] == [[x], []] && [[x]] + [[y]] == [[x], [y]];
    LineAdded([[x]], [], y);
    KeptStep([[x], []], Some(y), last);
    KeptStep([[x], [y]], None, [Some(z)] + end);
    assert [[x], [y]] + [[]] == [[x], [y], []] && [[x], [y]] + [[z]] == [[x], [y], [z]];
    LineAdded([[x], [y]], [], z);
    KeptStep([[x], [y], []], Some(z), end);
    EndOfEvent([[x], [y], [z]]);
    KeptStep([[]], Some(x), [Some(y)] + last);
    KeptStep([[x]], Some(y), last);
    KeptStep([[x, y]], None, [Some(z)] + end);
    assert [[x, y]] + [[]] == [[x, y], []] && [[x, y]] + [[z]] == [[x, y], [z]];
    LineAdded([[x, y]], [], z);
    KeptStep([[x, y], []], Some(z), end);
    EndOfEvent([[x, y], [z]]);
  }

  lemma ThreePieces(x: string, y: string, z: string)
    ensures var a, b, c := x + "\r", "\n" + (y + "\r"), "\n" + z;
      && Pieces([a, b, c]) == ([x, y], z) && Pieces([a + b, c]) == ([x + "\r" + ("\n" + y)], z)
      && Concat([a, b, c]) == a + b + c == Concat([a + b, c])
  {
    var a, b, c := x + "\r", "\n" + (y + "\r"), "\n" + z;
    TwoPieces(x, y + "\r");
    TwoPieces(x + "\r" + ("\n" + y), z);
    PiecesStep([a, b], c);
    hide Pieces, Concat;
    assert [a, b] + [c] == [a, b, c] && [x] + [y] == [x, y];
    assert a + b == x + "\r" + ("\n" + y) + "\r";
    assert SplitsCrLf(a + b, c);
  }

  lemma TwoLines(x: string, y: string)
    requires OneLine(x) && OneLine(y)
    ensures Unmarked(Lines(NormalizeLineEnds(x + "\r" + ("\n" + y)))) == [Some(x), Some(y)]
  {
    NormalOfHalves(y);
    NormalizeInPieces(x, "\r" + ("\n" + y));
    NormalizePlain(x);
    NormalizePlain(y);
    hide NormalizeLineEnds;
    Regroup(x, "\r", "\n" + y);
    Regroup(x, "\n", y);
    LinesOfTwo(x, y);
    LinesFirst(x, "");
    LinesFirst(y, "");
    hide Lines;
    assert Unmarked([y]) == [Some(y)] + Unmarked([]);
    assert Unmarked([x, y]) == [Some(x)] + Unmarked([y]);
    assert [x] + [y] == [x, y];
  }

  lemma FrontOfTwo(x: string, y: string)
    ensures FrontLines([x, y]) ==
      Unmarked(Lines(NormalizeLineEnds(x))) + [None] + Unmarked(Lines(NormalizeLineEnds(y))) + [None]
  {
    FrontOfOne(x);
    hide NormalizeLineEnds, Lines, Unmarked;
    assert [x, y][..1] == [x];
  }

  lemma LinesOfThree(x: string, y: string, z: string)
    requires OneLine(x) && OneLine(y) && OneLine(z)
    ensures var a, b, c := x + "\r", "\n" + (y + "\r"), "\n" + (z + "\n\n");
      var last := [None] + ([Some(z)] + ([Some("")] + [Some("")]));
      && LinesOf([a, b, c]) == [Some(x)] + ([None] + ([Some(y)] + last))
      && LinesOf([a + b, c]) == [Some(x)] + ([Some(y)] + last)
  {
    ThreePieces(x, y, z + "\n\n");
    TwoLines(x, y);
    EndingLines(x);
    EndingLines(y);
    EndingLines(z);
    var both := x + "\r" + ("\n" + y);
    hide NormalizeLineEnds, Lines, Unmarked;
    FrontOfTwo(x, y);
    FrontOfOne(both);
    hide Pieces, FrontLines;
    var last := [Some(z)] + ([Some("")] + [Some("")]);
    Regroup([Some(x)] + [None] + [Some(y)], [None], last);
    Regroup([Some(x)] + [None], [Some(y)], [None] + last);
    Regroup([Some(x)], [None], [Some(y)] + ([None] + last));
    Regroup([Some(x)] + [Some(y)], [None], last);
    Regroup([Some(x)], [Some(y)], [None] + last);
    assert [Some(x), Some(y)] == [Some(x)] + [Some(y)];
  }

  lemma Spelled()
    ensures var x, y, z := "event: a", "data: 1", "event: message";
      && OneLine(x) && OneLine(y) && OneLine(z)
      && x + "\r" == "event: a\r" && "\n" + (y + "\r") == "\ndata: 1\r"
      && "\n" + (z + "\n\n") == "\nevent: message\n\n"
  {
  }

  lemma EventCutTwice(x: string, y: string, z: string)
    requires OneLine(x) && OneLine(y) && OneLine(z) && x != "" && y != "" && z != ""
    ensures var a, b, c := x + "\r", "\n" + (y + "\r"), "\n" + (z + "\n\n");
      && (EventsOf([a, b, c]) == EventsOf([a + b + c]) <==> Kept([[x], [y], [z]]))
      && (EventsOf([a + b, c]) == EventsOf([a + b + c]) <==> Kept([[x, y], [z]]))
  {
    hide EventsOf, LinesOf, Kept, AllKept, Pieces, Concat, OneLine;
    var a, b, c := x + "\r", "\n" + (y + "\r"), "\n" + (z + "\n\n");
    ThreePieces(x, y, z + "\n\n");
    LinesOfThree(x, y, z);
    EventInThree(x, y, z);
    CutsExactly([a, b, c]);
    CutsExactly([a + b, c]);
  }

  /** A boundary that cuts a line end can undo what another did: behind the second cut alone
      the event has the wrong name, and with both it is right again. */
  lemma CutUndone()
    ensures var a, b, c := "event: a\r", "\ndata: 1\r", "\nevent: message\n\n";
      EventsOf([a + b, c]) != EventsOf([a + b + c]) && EventsOf([a, b, c]) == EventsOf([a + b + c])
  {
    Spelled();
    hide EventsOf, Kept, OneLine;
    var x, y, z: string := "event: a", "data: 1", "event: message";
    RenamedEvent(x, y, z);
    EventCutTwice(x, y, z);
  }
}
