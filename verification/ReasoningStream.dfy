/** The buffer that feeds model deltas through the splitter and emits what is new
    (backend/internal/chat/reasoning_parser.go:15-81, 161-169), and the exact
    conditions under which the stream ends up with what the batch splitter says
    of the whole text. */
module ReasoningStream {
  import opened Text
  import opened Events
  import opened ReasoningParser
  import opened ReasoningGrowth
  import opened ThinkBlocks

  datatype Buffer = Buffer(
    raw: string,
    parsedReasoning: string,
    parsedContent: string,
    content: string,
    reasoningContent: string,
    reasoningStarted: bool,
    reasoningDone: bool)

  const EMPTY_BUFFER := Buffer("", "", "", "", "", false, false)

  /** A buffer together with everything emitted so far. */
  datatype Effect = Effect(b: Buffer, events: seq<StreamEvent>)

  /** One callback of the model client. */
  datatype StreamDelta = StreamDelta(content: string, reasoning: string)

  function DiffFromPrefix(current: string, previous: string): string {
    if previous == "" then current
    else if !(previous <= current) then ""
    else current[|previous|..]
  }

  function AppendedReasoning(e: Effect, chunk: string): Effect {
    if chunk == "" then e
    else
      var start := if e.b.reasoningStarted then [] else [Plain(ReasoningStart, "")];
      Effect(
        e.b.(reasoningStarted := true, reasoningContent := e.b.reasoningContent + chunk),
        e.events + start + [Plain(ReasoningDelta, chunk)])
  }

  function AppendedContent(e: Effect, chunk: string): Effect {
    if chunk == "" then e
    else Effect(e.b.(content := e.b.content + chunk), e.events + [Plain(Delta, chunk)])
  }

  /** What parsing the grown text adds. */
  function Parsed(e: Effect, p: Parts): Effect {
    var newReasoning := DiffFromPrefix(p.reasoning, e.b.parsedReasoning);
    var e1 := if newReasoning == "" then e
              else AppendedReasoning(e.(b := e.b.(parsedReasoning := p.reasoning)), newReasoning);
    var newContent := DiffFromPrefix(p.content, e1.b.parsedContent);
    AppendedContent(e1.(b := e1.b.(parsedContent := p.content)), newContent)
  }

  function Applied(e: Effect, d: StreamDelta): Effect {
    var e1 := AppendedReasoning(e, d.reasoning);
    if d.content == "" then e1
    else
      var raw := e1.b.raw + d.content;
      Parsed(e1.(b := e1.b.(raw := raw)), Split(raw))
  }

  function FinishedReasoning(e: Effect): Effect {
    if !e.b.reasoningStarted || e.b.reasoningDone then e
    else Effect(e.b.(reasoningDone := true), e.events + [Plain(ReasoningDone, "")])
  }

  class AssistantResponseBuffer {
    var rawContent: string
    var parsedReasoning: string
    var parsedContent: string
    var content: string
    var reasoningContent: string
    var reasoningStarted: bool
    var reasoningDone: bool

    function State(): Buffer
      reads this
    {
      Buffer(rawContent, parsedReasoning, parsedContent, content, reasoningContent, reasoningStarted, reasoningDone)
    }

    constructor ()
      ensures State() == EMPTY_BUFFER
    {
      rawContent, parsedReasoning, parsedContent, content, reasoningContent := "", "", "", "", "";
      reasoningStarted, reasoningDone := false, false;
    }

    method ApplyDelta(d: StreamDelta, emit: EventSink)
      modifies this, emit
      ensures Effect(State(), emit.events) == Applied(Effect(old(State()), old(emit.events)), d)
    {
      hide Split;
      if d.reasoning != "" {
        AppendReasoning(d.reasoning, emit);
      }
      if d.content == "" {
        return;
      }

      rawContent := rawContent + d.content;
      var split := SplitLeadingReasoningContent(rawContent);

      var newReasoning := DiffFromPrefix(split.reasoning, parsedReasoning);
      if newReasoning != "" {
        parsedReasoning := split.reasoning;
        AppendReasoning(newReasoning, emit);
      }

      var newContent := DiffFromPrefix(split.content, parsedContent);
      if newContent != "" {
        parsedContent := split.content;
        AppendContent(newContent, emit);
      } else {
        parsedContent := split.content;
      }
    }

    method FinishReasoning(emit: EventSink)
      modifies this, emit
      ensures Effect(State(), emit.events) == FinishedReasoning(Effect(old(State()), old(emit.events)))
    {
      if !reasoningStarted || reasoningDone {
        return;
      }
      reasoningDone := true;
      emit.Emit(Plain(ReasoningDone, ""));
    }

    method AppendReasoning(chunk: string, emit: EventSink)
      modifies this, emit
      ensures Effect(State(), emit.events) == AppendedReasoning(Effect(old(State()), old(emit.events)), chunk)
    {
      if chunk == "" {
        return;
      }
      if !reasoningStarted {
        reasoningStarted := true;
        emit.Emit(Plain(ReasoningStart, ""));
      }
      reasoningContent := reasoningContent + chunk;
      emit.Emit(Plain(ReasoningDelta, chunk));
    }

    method AppendContent(chunk: string, emit: EventSink)
      modifies this, emit
      ensures Effect(State(), emit.events) == AppendedContent(Effect(old(State()), old(emit.events)), chunk)
    {
      if chunk == "" {
        return;
      }
      content := content + chunk;
      emit.Emit(Plain(Delta, chunk));
    }
  }

  // ------------------------------------------------------- a whole stream

  /** The buffer and log after all of `deltas`, from a fresh buffer. */
  function Fed(deltas: seq<StreamDelta>): Effect {
    if deltas == [] then Effect(EMPTY_BUFFER, [])
    else Applied(Fed(deltas[..|deltas| - 1]), deltas[|deltas| - 1])
  }

  /** The text received so far. */
  function Received(deltas: seq<StreamDelta>): string {
    if deltas == [] then ""
    else Received(deltas[..|deltas| - 1]) + deltas[|deltas| - 1].content
  }

  /** The answer the batch splitter sees, and the one the stream has shown. */
  function Batch(deltas: seq<StreamDelta>): Parts {
    Split(Received(deltas))
  }

  /** Boundary kind (a): the text so far is non-empty and all whitespace, and the next
      chunk shows that this whitespace is not the start of the answer. */
  ghost predicate BlankWithdrawn(deltas: seq<StreamDelta>, i: nat)
    requires i < |deltas|
  {
    BlankWasNoText(Received(deltas[..i]), deltas[i].content)
  }

  /** Boundary kind (b): the text so far ends in blocks, whitespace and the start of a
      tag, and the next chunk shows that this start belongs to the answer. */
  ghost predicate TagWithdrawn(deltas: seq<StreamDelta>, i: nat)
    requires i < |deltas|
  {
    TagWasText(Received(deltas[..i]), deltas[i].content, false)
  }

  ghost predicate SomeBlankWithdrawn(deltas: seq<StreamDelta>) {
    exists i :: 0 <= i < |deltas| && BlankWithdrawn(deltas, i)
  }

  ghost predicate SomeTagWithdrawn(deltas: seq<StreamDelta>) {
    exists i :: 0 <= i < |deltas| && TagWithdrawn(deltas, i)
  }

  lemma WithdrawnStep(deltas: seq<StreamDelta>)
    requires deltas != []
    ensures var init, n := deltas[..|deltas| - 1], |deltas| - 1;
      && (SomeBlankWithdrawn(deltas) <==> SomeBlankWithdrawn(init) || BlankWithdrawn(deltas, n))
      && (SomeTagWithdrawn(deltas) <==> SomeTagWithdrawn(init) || TagWithdrawn(deltas, n))
  {
    hide Received, TagWasText, BlankWasNoText;
    var init, n := deltas[..|deltas| - 1], |deltas| - 1;
    forall i | 0 <= i < n
      ensures BlankWithdrawn(init, i) == BlankWithdrawn(deltas, i)
      ensures TagWithdrawn(init, i) == TagWithdrawn(deltas, i)
    {
      assert init[..i] == deltas[..i] && init[..i + 1] == deltas[..i + 1];
    }
  }

  // --------------------------------------------------------- one more delta

  lemma DiffCases(current: string, previous: string)
    ensures previous <= current ==>
      DiffFromPrefix(current, previous) == current[|previous|..]
      && previous + DiffFromPrefix(current, previous) == current
    ensures !(previous <= current) ==> DiffFromPrefix(current, previous) == ""
  {
  }

  /** How one delta changes each field that the theorems speak of. */
  lemma AppliedFields(e: Effect, d: StreamDelta)
    ensures var b := Applied(e, d).b;
      var p := Split(e.b.raw + d.content);
      if d.content == "" then
        b.(reasoningStarted := e.b.reasoningStarted)
        == e.b.(reasoningContent := e.b.reasoningContent + d.reasoning)
      else
        var dr, dc := DiffFromPrefix(p.reasoning, e.b.parsedReasoning), DiffFromPrefix(p.content, e.b.parsedContent);
        && b.raw == e.b.raw + d.content
        && b.parsedContent == p.content
        && b.parsedReasoning == (if dr == "" then e.b.parsedReasoning else p.reasoning)
        && b.content == e.b.content + dc
        && b.reasoningContent == e.b.reasoningContent + d.reasoning + dr
  {
    hide Split;
    assert e.b.content + "" == e.b.content;
    assert e.b.reasoningContent + "" == e.b.reasoningContent;
  }

  lemma {:induction false} AnswerIsNotBlank(s: string, consumed: bool)
    requires AnswerBegan(s, consumed)
    ensures var c := SplitFrom(s, consumed).content; WhitespaceRun(c) < |c|
    decreases |s|
  {
    hide SplitFrom, SplitOpened, IndexOf, AnswerBegan, EndsInPartialTag;
    if WhitespaceRun(s) == |s| {
      ReadBlank(s, consumed);
    } else if !(THINK_OPEN <= s[WhitespaceRun(s)..]) {
      ReadUnopened(s, consumed);
    } else {
      ReadOpened(s, consumed);
      OpenedFound(Lead(s, consumed), Body(s), IndexOf(Body(s), THINK_CLOSE));
      AnswerIsNotBlank(Behind(Body(s)), true);
    }
  }

  lemma GapStays(c: string, d: string, r: string)
    requires WhitespaceRun(c) < |c|
    ensures AnswerGap(Parts(r, c + d)) == AnswerGap(Parts(r, c))
  {
    WhitespaceRunExtend(c, d);
  }

  /** The reasoning the parser has recorded, for any chunking. */
  ghost predicate ReasoningTracked(raw: string, pr: string, withdrawn: bool) {
    var p := Split(raw);
    if withdrawn then AnswerBegan(raw, false) && AnswerGap(p) != "" && pr == p.reasoning + AnswerGap(p)
    else pr == p.reasoning
  }

  lemma ReasoningTrackedStep(s: string, d: string, pr: string, withdrawn: bool)
    requires ReasoningTracked(s, pr, withdrawn)
    ensures var q := Split(s + d);
      ReasoningTracked(s + d, if DiffFromPrefix(q.reasoning, pr) == "" then pr else q.reasoning,
                       withdrawn || TagWasText(s, d, false))
  {
    hide SplitFrom, AnswerBegan, EndsInPartialTag, WhitespaceRun, AllWhitespace, TagWasText, BlankWasNoText;
    var p, q := Split(s), Split(s + d);
    SplitGrows(s, d, false);
    DiffCases(q.reasoning, pr);
    if withdrawn {
      AnswerIsNotBlank(s, false);
      GapStays(p.content, d, p.reasoning);
      assert q == Parts(p.reasoning, p.content + d);
    }
  }

  /** `content` has lost track of the answer `c` for good: some text was shown that
      the answer does not start with. */
  ghost predicate Displaced(content: string, c: string) {
    exists shown: string, skipped: string ::
      skipped <= c && !(shown <= skipped) && content == shown + c[|skipped|..]
  }

  lemma SameTail(shown: string, skipped: string, c: string)
    requires skipped <= c && shown + c[|skipped|..] == c
    ensures shown == skipped
  {
    assert c[..|shown|] == shown;
  }

  lemma DisplacedIsWrong(content: string, c: string)
    requires Displaced(content, c)
    ensures content != c
  {
    var shown: string, skipped: string :|
      skipped <= c && !(shown <= skipped) && content == shown + c[|skipped|..];
    if content == c {
      SameTail(shown, skipped, c);
    }
  }

  lemma DisplacedStays(content: string, c: string, c': string)
    requires Displaced(content, c) && c <= c'
    ensures Displaced(content + DiffFromPrefix(c', c), c')
  {
    var shown: string, skipped: string :|
      skipped <= c && !(shown <= skipped) && content == shown + c[|skipped|..];
    DiffCases(c', c);
    assert shown + c[|skipped|..] + c'[|c|..] == shown + c'[|skipped|..];
  }

  /** The answer shown so far, for any chunking. */
  ghost predicate ContentTracked(raw: string, content: string, withdrawn: bool) {
    if withdrawn then Displaced(content, Split(raw).content) && !AllWhitespace(raw)
    else content == Split(raw).content
  }

  lemma BlankContent(s: string)
    ensures AllWhitespace(s) ==> Split(s).content == s
  {
    if AllWhitespace(s) {
      assert s[..|s|] == s;
      WhitespaceRunIs(s, |s|);
      ReadBlank(s, false);
    }
  }

  lemma ContentTrackedStep(s: string, d: string, content: string, withdrawn: bool)
    requires ContentTracked(s, content, withdrawn)
    ensures var p, q := Split(s), Split(s + d);
      ContentTracked(s + d, content + DiffFromPrefix(q.content, p.content),
                     withdrawn || BlankWasNoText(s, d))
  {
    hide SplitFrom, AnswerBegan, EndsInPartialTag, WhitespaceRun, TagWasText, Tail, StartsWithTag;
    var p, q := Split(s), Split(s + d);
    SplitGrows(s, d, false);
    DiffCases(q.content, p.content);
    BlankContent(s);
    BlankContent(s + d);
    if withdrawn {
      DisplacedStays(content, p.content, q.content);
      assert !AllWhitespace(s + d) by {
        var i :| 0 <= i < |s| && !IsThinkWhitespace(s[i]);
        assert !IsThinkWhitespace((s + d)[i]);
      }
    } else if BlankWasNoText(s, d) {
      assert content + "" == s + q.content[|q.content|..];
    }
  }

  lemma QuietDelta(raw: string, pr: string, withdrawn: bool)
    requires ReasoningTracked(raw, pr, withdrawn)
    ensures DiffFromPrefix(Split(raw).reasoning, pr) == ""
  {
    hide Split, AnswerBegan;
    DiffCases(Split(raw).reasoning, pr);
  }

  // ------------------------------------------------------------- main results

  lemma {:induction false} Tracked(deltas: seq<StreamDelta>)
    ensures var b := Fed(deltas).b;
      && b.raw == Received(deltas)
      && b.parsedContent == Batch(deltas).content
      && ReasoningTracked(b.raw, b.parsedReasoning, SomeTagWithdrawn(deltas))
      && ContentTracked(b.raw, b.content, SomeBlankWithdrawn(deltas))
  {
    hide Applied, SplitFrom, TagWasText, BlankWasNoText;
    if deltas == [] {
      BlankContent("");
      ReadBlank("", false);
    } else {
      hide AllWhitespace, ReasoningTracked, ContentTracked;
      var init, n := deltas[..|deltas| - 1], |deltas| - 1;
      assert deltas[..n + 1] == deltas;
      Tracked(init);
      WithdrawnStep(deltas);
      hide SomeBlankWithdrawn, SomeTagWithdrawn;
      var b, d := Fed(init).b, deltas[n];
      AppliedFields(Fed(init), d);
      assert d.content == "" ==> b.raw + d.content == b.raw;
      ReasoningTrackedStep(b.raw, d.content, b.parsedReasoning, SomeTagWithdrawn(init));
      ContentTrackedStep(b.raw, d.content, b.content, SomeBlankWithdrawn(init));
      DiffCases(Split(b.raw).content, b.parsedContent);
      QuietDelta(b.raw, b.parsedReasoning, SomeTagWithdrawn(init));
    }
  }

  /** For every chunking, native reasoning included, the recorded reasoning is the
      batch reasoning, possibly followed by the whitespace in front of the answer. */
  lemma ParsedReasoningAnyChunking(deltas: seq<StreamDelta>)
    ensures var pr, p := Fed(deltas).b.parsedReasoning, Batch(deltas);
      || pr == p.reasoning
      || (AnswerBegan(Received(deltas), false) && AnswerGap(p) != "" && pr == p.reasoning + AnswerGap(p))
    ensures Fed(deltas).b.parsedReasoning == Batch(deltas).reasoning <==> !SomeTagWithdrawn(deltas)
  {
    hide SplitFrom, AnswerBegan, Received, Fed, SomeTagWithdrawn, SomeBlankWithdrawn, ContentTracked, WhitespaceRun;
    Tracked(deltas);
  }

  /** The streamed answer is the batch answer exactly when no whitespace that was
      shown first is withdrawn. */
  lemma ContentExact(deltas: seq<StreamDelta>)
    ensures Fed(deltas).b.content == Batch(deltas).content <==> !SomeBlankWithdrawn(deltas)
  {
    hide SplitFrom, AllWhitespace, Received, Fed, SomeTagWithdrawn, SomeBlankWithdrawn, ReasoningTracked, Displaced;
    Tracked(deltas);
    if SomeBlankWithdrawn(deltas) {
      DisplacedIsWrong(Fed(deltas).b.content, Batch(deltas).content);
    }
  }

  ghost predicate NoNativeReasoning(deltas: seq<StreamDelta>) {
    forall d :: d in deltas ==> d.reasoning == ""
  }

  lemma {:induction false} ReasoningIsParsed(deltas: seq<StreamDelta>)
    requires NoNativeReasoning(deltas)
    ensures Fed(deltas).b.reasoningContent == Fed(deltas).b.parsedReasoning
  {
    hide Split, Applied;
    if deltas == [] {
    } else {
      var init, n := deltas[..|deltas| - 1], |deltas| - 1;
      ReasoningIsParsed(init);
      Tracked(init);
      var e, d := Fed(init), deltas[n];
      assert d in deltas;
      AppliedFields(e, d);
      hide ReasoningTracked, ContentTracked, Fed, NoNativeReasoning;
      assert e.b.reasoningContent + "" == e.b.reasoningContent;
      DiffCases(Split(e.b.raw + d.content).reasoning, e.b.parsedReasoning);
    }
  }

  /** The streamed reasoning is the batch reasoning exactly when no start of a tag
      that followed blocks and whitespace turns out to be answer text. */
  lemma ReasoningExact(deltas: seq<StreamDelta>)
    requires NoNativeReasoning(deltas)
    ensures Fed(deltas).b.reasoningContent == Batch(deltas).reasoning <==> !SomeTagWithdrawn(deltas)
  {
    hide Batch, Fed, SomeTagWithdrawn, NoNativeReasoning;
    ReasoningIsParsed(deltas);
    ParsedReasoningAnyChunking(deltas);
  }

  lemma {:induction false} ReceivedGrows(deltas: seq<StreamDelta>, i: nat)
    requires i <= |deltas|
    ensures |Received(deltas[..i])| <= |Received(deltas)|
    ensures i < |deltas| ==> Received(deltas[..i + 1]) == Received(deltas[..i]) + deltas[i].content
    decreases |deltas| - i
  {
    if i == |deltas| {
      assert deltas[..i] == deltas;
    } else {
      assert deltas[..i + 1][..i] == deltas[..i];
      ReceivedGrows(deltas, i + 1);
    }
  }

  lemma WovenStep(e: Effect, d: StreamDelta)
    ensures var b := Applied(e, d).b;
      && e.b.parsedReasoning <= b.parsedReasoning
      && b.reasoningContent ==
           e.b.reasoningContent + d.reasoning + b.parsedReasoning[|e.b.parsedReasoning|..]
  {
    AppliedFields(e, d);
    var p, before := Split(e.b.raw + d.content), e.b.parsedReasoning;
    DiffCases(p.reasoning, before);
    hide Applied, Split, DiffFromPrefix;
    assert before[|before|..] == "";
    assert e.b.reasoningContent + d.reasoning + "" == e.b.reasoningContent + d.reasoning;
  }

  /** Native reasoning comes in between: each delta adds its own, and then what the parser
      records with it. */
  lemma NativeIsWoven(deltas: seq<StreamDelta>)
    requires deltas != []
    ensures var n := |deltas| - 1;
      var b, before := Fed(deltas).b, Fed(deltas[..n]).b;
      && before.parsedReasoning <= b.parsedReasoning
      && b.reasoningContent ==
           before.reasoningContent + deltas[n].reasoning + b.parsedReasoning[|before.parsedReasoning|..]
  {
    hide Applied;
    WovenStep(Fed(deltas[..|deltas| - 1]), deltas[|deltas| - 1]);
  }

  /** An interior boundary lies strictly inside the text. */
  ghost predicate InteriorBoundary(deltas: seq<StreamDelta>, i: nat) {
    i < |deltas| && 0 < |Received(deltas[..i])| < |Received(deltas)|
  }

  lemma WithdrawnIsInterior(deltas: seq<StreamDelta>, i: nat)
    requires i < |deltas| && (BlankWithdrawn(deltas, i) || TagWithdrawn(deltas, i))
    ensures InteriorBoundary(deltas, i)
  {
    hide SplitFrom, AnswerBegan, AllWhitespace;
    var s, d := Received(deltas[..i]), deltas[i].content;
    ReceivedGrows(deltas, i);
    ReceivedGrows(deltas, i + 1);
    if d == "" {
      assert s + d == s;
      BlankContent(s);
      SplitGrows(s, d, false);
    }
    if s == "" {
      ReadBlank("", false);
    }
  }

  /** Streaming equals batch for every chunking without an interior boundary of
      either kind. */
  lemma StreamingEqualsBatch(deltas: seq<StreamDelta>)
    requires forall i: nat :: InteriorBoundary(deltas, i) ==>
      !AllWhitespace(Received(deltas[..i])) && !EndsInPartialTag(Received(deltas[..i]), false)
    ensures Fed(deltas).b.content == Batch(deltas).content
    ensures Fed(deltas).b.parsedReasoning == Batch(deltas).reasoning
    ensures NoNativeReasoning(deltas) ==> Fed(deltas).b.reasoningContent == Batch(deltas).reasoning
  {
    hide Fed, SplitFrom, NoNativeReasoning, EndsInPartialTag, AllWhitespace, AnswerBegan, WhitespaceRun;
    forall i | 0 <= i < |deltas|
      ensures !BlankWithdrawn(deltas, i) && !TagWithdrawn(deltas, i)
    {
      if BlankWithdrawn(deltas, i) || TagWithdrawn(deltas, i) {
        WithdrawnIsInterior(deltas, i);
      }
    }
    ContentExact(deltas);
    ParsedReasoningAnyChunking(deltas);
    if NoNativeReasoning(deltas) {
      ReasoningExact(deltas);
    }
  }

  /** Kind (a) matters: a blank first chunk is shown, and the start of a tag that
      follows takes it back. */
  lemma BlankBoundaryMatters()
    ensures var deltas := [StreamDelta(" ", ""), StreamDelta("<", "")];
      Fed(deltas).b.content != Batch(deltas).content
  {
    hide Fed, SplitFrom, AnswerBegan, EndsInPartialTag;
    var deltas := [StreamDelta(" ", ""), StreamDelta("<", "")];
    assert deltas[..1] == [StreamDelta(" ", "")] && deltas[..2] == deltas && deltas[..1][..0] == [];
    assert Received(deltas[..1]) == " " && Received(deltas) == " <";
    assert " <"[..1] == " ";
    WhitespaceRunIs(" <", 1);
    assert " <"[1..] == "<";
    assert "<" <= THINK_OPEN;
    ReadUnopened(" <", false);
    assert BlankWithdrawn(deltas, 1);
    ContentExact(deltas);
  }

  lemma OneReceived(d: StreamDelta)
    ensures Received([d]) == d.content
  {
    assert [d][..0] == [];
    assert "" + d.content == d.content;
  }

  lemma NoTag()
    ensures !(THINK_OPEN <= "<" + "b") && !IsPotentialThinkPrefix("<" + "b")
  {
    assert ("<" + "b")[1] != THINK_OPEN[1];
  }

  lemma TagIsText()
    ensures TagWasText("<think></think> <", "b", false)
  {
    hide AnswerBegan, EndsInPartialTag, IndexOf, TailRest, SplitFrom;
    var blocks := [Block("", " ")];
    IndexOfFirst("", THINK_CLOSE);
    assert AreBlocks(blocks);
    assert PrintedAll(blocks) == "<think></think> ";
    assert "" + PrintedAll(blocks) + "<" == "<think></think> <";
    hide PrintedAll, AreBlocks;
    assert "<" <= THINK_OPEN;
    ReadBlocks("", blocks, "<", false);
    TailOfBlocks("", blocks, "<");
    NoTag();
  }

  /** Kind (b) matters: whitespace between a block and the start of a tag is shown as
      reasoning, and stays there when the tag turns out to be answer text. */
  lemma TagBoundaryMatters()
    ensures var deltas := [StreamDelta("<think></think> <", ""), StreamDelta("b", "")];
      Fed(deltas).b.reasoningContent != Batch(deltas).reasoning
  {
    hide Fed, Received, TagWasText, Split;
    var deltas := [StreamDelta("<think></think> <", ""), StreamDelta("b", "")];
    assert deltas[..1] == [StreamDelta("<think></think> <", "")];
    OneReceived(deltas[0]);
    TagIsText();
    assert TagWithdrawn(deltas, 1);
    ReasoningExact(deltas);
  }
}
