/** Printing leading `<think>` blocks and splitting them again
    (backend/internal/chat/reasoning_parser.go:83-146). */
module ThinkBlocks {
  import opened Text
  import opened ReasoningParser
  import opened ReasoningGrowth

  /** A complete block and the whitespace behind it. */
  datatype Block = Block(body: string, gap: string)

  function Printed(block: Block): string {
    THINK_OPEN + block.body + THINK_CLOSE + block.gap
  }

  function PrintedAll(blocks: seq<Block>): string {
    if blocks == [] then "" else Printed(blocks[0]) + PrintedAll(blocks[1..])
  }

  predicate IsBlock(block: Block) {
    IndexOf(block.body, THINK_CLOSE) == -1 && AllWhitespace(block.gap)
  }

  predicate AreBlocks(blocks: seq<Block>) {
    forall i :: 0 <= i < |blocks| ==> IsBlock(blocks[i])
  }

  /** Bodies with the whitespace between them, but not behind the last. */
  function JoinedReasoning(blocks: seq<Block>): string {
    if blocks == [] then ""
    else if |blocks| == 1 then blocks[0].body
    else blocks[0].body + blocks[0].gap + JoinedReasoning(blocks[1..])
  }

  /** Text that neither starts with whitespace nor could be, or become, a tag. */
  predicate IsAnswer(c: string) {
    c != "" && !IsThinkWhitespace(c[0]) && !(THINK_OPEN <= c) && !IsPotentialThinkPrefix(c)
  }

  /** A non-empty start of an opening tag. */
  predicate IsPartialTag(c: string) {
    c != "" && IsPotentialThinkPrefix(c)
  }

  /** An opening tag whose block is not closed. */
  predicate IsUnclosed(c: string) {
    THINK_OPEN <= c && IndexOf(c[|THINK_OPEN|..], THINK_CLOSE) == -1
  }

  /** What an unclosed block shows so far. */
  function ShownOf(c: string): string
    requires THINK_OPEN <= c
  {
    TrimPotentialTagSuffix(c[|THINK_OPEN|..], THINK_CLOSE)
  }

  /** The closing tag cannot overlap the end of a body: `<` occurs only at its start. */
  lemma CloseBehindBody(body: string, tail: string)
    requires IndexOf(body, THINK_CLOSE) == -1
    ensures IndexOf(body + THINK_CLOSE + tail, THINK_CLOSE) == |body|
  {
    var s := body + THINK_CLOSE + tail;
    IndexOfFirst(body, THINK_CLOSE);
    assert s[|body|..|body| + |THINK_CLOSE|] == THINK_CLOSE;
    assert body + (THINK_CLOSE + tail) == s;
    forall j | 0 <= j < |body| ensures !OccursAt(s, THINK_CLOSE, j) {
      if j + |THINK_CLOSE| <= |body| {
        OccursInExtension(body, THINK_CLOSE + tail, THINK_CLOSE, j);
      }
      var m := |body| - j;
      if m < |THINK_CLOSE| && j + |THINK_CLOSE| <= |s| {
        assert s[j..j + |THINK_CLOSE|][m] == s[|body|] == THINK_CLOSE[0] != THINK_CLOSE[m];
      }
    }
    IndexOfIs(s, THINK_CLOSE, |body|);
  }

  /** Reading one block off the front. */
  lemma ReadBlock(gap: string, block: Block, tail: string, consumed: bool)
    requires AllWhitespace(gap) && IndexOf(block.body, THINK_CLOSE) == -1
    ensures var s := gap + (THINK_OPEN + block.body + THINK_CLOSE) + tail;
      && SplitFrom(s, consumed) == Prepend((if consumed then gap else "") + block.body, SplitFrom(tail, true))
      && EndsInPartialTag(s, consumed) == EndsInPartialTag(tail, true)
      && AnswerBegan(s, consumed) == AnswerBegan(tail, true)
      && Tail(s) == Tail(tail)
  {
    hide SplitFrom, SplitOpened, IndexOf, EndsInPartialTag, AnswerBegan, Tail;
    var s := gap + (THINK_OPEN + block.body + THINK_CLOSE) + tail;
    var body := block.body + THINK_CLOSE + tail;
    assert s[..|gap|] == gap;
    assert s[|gap|..] == THINK_OPEN + body;
    assert s[|gap|] == THINK_OPEN[0];
    WhitespaceRunIs(s, |gap|);
    assert (THINK_OPEN + body)[|THINK_OPEN|..] == body;
    ReadOpened(s, consumed);
    CloseBehindBody(block.body, tail);
    assert body[..|block.body|] == block.body;
    assert Behind(body) == tail;
    OpenedFound(Lead(s, consumed), body, |block.body|);
  }

  lemma FirstOfPrinted(gap: string, blocks: seq<Block>, tail: string)
    requires blocks != []
    ensures gap + PrintedAll(blocks) + tail
      == gap + (THINK_OPEN + blocks[0].body + THINK_CLOSE) + (blocks[0].gap + PrintedAll(blocks[1..]) + tail)
  {
    var b, rest := blocks[0], PrintedAll(blocks[1..]);
    var tagged := THINK_OPEN + b.body + THINK_CLOSE;
    assert PrintedAll(blocks) == tagged + b.gap + rest;
    hide PrintedAll;
    Regroup(tagged, b.gap, rest);
    Regroup(gap, tagged + b.gap + rest, tail);
    Regroup(tagged, b.gap + rest, tail);
    Regroup(gap, tagged, b.gap + rest + tail);
  }

  lemma ReadFirst(gap: string, blocks: seq<Block>, tail: string, consumed: bool)
    requires AllWhitespace(gap) && blocks != [] && AreBlocks(blocks)
    ensures var s, t := gap + PrintedAll(blocks) + tail, blocks[0].gap + PrintedAll(blocks[1..]) + tail;
      && SplitFrom(s, consumed) == Prepend((if consumed then gap else "") + blocks[0].body, SplitFrom(t, true))
      && EndsInPartialTag(s, consumed) == EndsInPartialTag(t, true)
      && AnswerBegan(s, consumed) == AnswerBegan(t, true)
      && Tail(s) == Tail(t)
  {
    var b, rest := blocks[0], PrintedAll(blocks[1..]);
    assert IsBlock(b);
    FirstOfPrinted(gap, blocks, tail);
    hide SplitFrom, IndexOf, EndsInPartialTag, AnswerBegan, AllWhitespace, Tail, PrintedAll, AreBlocks;
    ReadBlock(gap, b, b.gap + rest + tail, consumed);
  }

  lemma NoMorePrinted(gap: string, c: string)
    ensures gap + PrintedAll([]) + c == gap + c
  {
    assert gap + "" == gap;
  }

  lemma BlockParts(b: Block)
    requires IsBlock(b)
    ensures AllWhitespace(b.gap)
  {
  }

  lemma RestAreBlocks(blocks: seq<Block>)
    requires blocks != [] && AreBlocks(blocks)
    ensures AreBlocks(blocks[1..]) && AllWhitespace(blocks[0].gap)
  {
    assert IsBlock(blocks[0]);
    BlockParts(blocks[0]);
    hide IsBlock, AllWhitespace;
    forall i | 0 <= i < |blocks| - 1 ensures IsBlock(blocks[1..][i]) {
      assert blocks[1..][i] == blocks[i + 1];
    }
  }

  /** What the splitter makes of a gap and a remainder that has no closed block. */
  ghost predicate ReadsAs(s: string, consumed: bool, p: Parts, began: bool, partial: bool) {
    SplitFrom(s, consumed) == p && AnswerBegan(s, consumed) == began && EndsInPartialTag(s, consumed) == partial
  }

  /** The split of blocks with reasoning `lead` before gap `gap` and remainder `c`. */
  function EndOf(lead: string, gap: string, c: string): Parts {
    if c == "" then Parts(lead, "")
    else if THINK_OPEN <= c then Parts(lead + gap + ShownOf(c), "")
    else if IsPotentialThinkPrefix(c) then Parts(lead + gap, "")
    else Parts(lead, gap + c)
  }

  predicate IsRemainder(c: string) {
    c == "" || IsAnswer(c) || IsPartialTag(c) || IsUnclosed(c)
  }

  lemma ReadEnd(gap: string, c: string)
    requires AllWhitespace(gap) && IsRemainder(c)
    ensures ReadsAs(gap + c, true, EndOf("", gap, c), IsAnswer(c), IsPartialTag(c) && gap != "")
  {
    hide SplitFrom, SplitOpened, EndsInPartialTag, AnswerBegan, IndexOf, TrimPotentialTagSuffix;
    var s := gap + c;
    assert s[..|gap|] == gap;
    if c == "" {
      WhitespaceRunIs(s, |s|);
      ReadBlank(s, true);
    } else {
      assert c[0] == s[|gap|] && !IsThinkWhitespace(c[0]);
      WhitespaceRunIs(s, |gap|);
      assert s[|gap|..] == c;
      assert "" + gap == gap;
      if THINK_OPEN <= c {
        ReadOpened(s, true);
        OpenedPending(gap, c[|THINK_OPEN|..]);
      } else {
        ReadUnopened(s, true);
      }
    }
  }

  lemma EndOfLead(a: string, lead: string, gap: string, c: string)
    ensures Prepend(a, EndOf(lead, gap, c)) == EndOf(a + lead, gap, c)
  {
    assert a + (lead + gap) == a + lead + gap;
    if THINK_OPEN <= c {
      assert a + (lead + gap + ShownOf(c)) == a + lead + gap + ShownOf(c);
    }
  }

  lemma JoinedStep(own: string, blocks: seq<Block>)
    requires |blocks| > 1
    ensures own + blocks[0].body + (blocks[0].gap + JoinedReasoning(blocks[1..])) == own + JoinedReasoning(blocks)
  {
    var b, rest := blocks[0], JoinedReasoning(blocks[1..]);
    assert JoinedReasoning(blocks) == b.body + b.gap + rest;
    hide JoinedReasoning;
    Regroup(b.body, b.gap, rest);
    Regroup(own, b.body, b.gap + rest);
  }

  lemma OpenAtStart(lead: string, body: string)
    requires AllWhitespace(lead) && IndexOf(body, THINK_CLOSE) == -1
    ensures SplitFrom(lead + (THINK_OPEN + body), false) == Parts("" + TrimPotentialTagSuffix(body, THINK_CLOSE), "")
  {
    hide SplitFrom, SplitOpened, IndexOf, TrimPotentialTagSuffix;
    var s := lead + (THINK_OPEN + body);
    assert s[..|lead|] == lead && s[|lead|] == THINK_OPEN[0];
    WhitespaceRunIs(s, |lead|);
    assert s[|lead|..] == THINK_OPEN + body;
    ReadOpened(s, false);
    assert Body(s) == body;
    OpenedPending("", body);
  }

  /** Blocks and a remainder behind whitespace `gap`: the whole result of the splitter. */
  lemma {:induction false} ReadBlocks(gap: string, blocks: seq<Block>, c: string, consumed: bool)
    requires AllWhitespace(gap) && blocks != [] && AreBlocks(blocks) && IsRemainder(c)
    ensures var last := blocks[|blocks| - 1].gap;
      ReadsAs(gap + PrintedAll(blocks) + c, consumed,
              EndOf((if consumed then gap else "") + JoinedReasoning(blocks), last, c),
              IsAnswer(c), IsPartialTag(c) && last != "")
    decreases |blocks|
  {
    hide SplitFrom, EndsInPartialTag, AnswerBegan, IsAnswer, IsPartialTag, IsRemainder, IsBlock, EndOf, AllWhitespace;
    ReadFirst(gap, blocks, c, consumed);
    RestAreBlocks(blocks);
    NoMorePrinted(blocks[0].gap, c);
    hide AreBlocks, PrintedAll;
    var b, rest := blocks[0], blocks[1..];
    var own := (if consumed then gap else "") + b.body;
    if rest == [] {
      ReadEnd(b.gap, c);
      EndOfLead(own, "", b.gap, c);
      assert own + "" == own;
    } else {
      var last := blocks[|blocks| - 1].gap;
      assert rest[|rest| - 1].gap == last;
      ReadBlocks(b.gap, rest, c, true);
      EndOfLead(own, b.gap + JoinedReasoning(rest), last, c);
      JoinedStep(if consumed then gap else "", blocks);
    }
  }

  lemma BlankTail(s: string)
    requires WhitespaceRun(s) == |s|
    ensures Tail(s) == s
  {
  }

  lemma TailOfEnd(gap: string, c: string)
    requires AllWhitespace(gap) && IsRemainder(c)
    ensures TailGap(gap + c) == gap && TailRest(gap + c) == c
  {
    hide SplitFrom, SplitOpened, EndsInPartialTag, AnswerBegan, IndexOf, Tail;
    var s := gap + c;
    assert s[..|gap|] == gap && s[|gap|..] == c;
    assert c != "" ==> c[0] == s[|gap|] && !IsThinkWhitespace(c[0]);
    WhitespaceRunIs(s, |gap|);
    if THINK_OPEN <= c {
      ReadOpened(s, true);
    } else if c != "" {
      ReadUnopened(s, true);
    } else {
      BlankTail(s);
    }
  }

  lemma TailOfFirst(gap: string, blocks: seq<Block>, tail: string)
    requires AllWhitespace(gap) && blocks != [] && AreBlocks(blocks)
    ensures var s, t := gap + PrintedAll(blocks) + tail, blocks[0].gap + PrintedAll(blocks[1..]) + tail;
      TailGap(s) == TailGap(t) && TailRest(s) == TailRest(t)
  {
    hide Tail, WhitespaceRun, AllWhitespace, PrintedAll, AreBlocks, SplitFrom, AnswerBegan, EndsInPartialTag;
    ReadFirst(gap, blocks, tail, false);
  }

  /** The tail of printed blocks and a remainder is the last gap and the remainder. */
  lemma {:induction false} TailOfBlocks(lead: string, blocks: seq<Block>, c: string)
    requires AllWhitespace(lead) && blocks != [] && AreBlocks(blocks) && IsRemainder(c)
    ensures var s := lead + PrintedAll(blocks) + c;
      TailGap(s) == blocks[|blocks| - 1].gap && TailRest(s) == c
    decreases |blocks|
  {
    hide Tail, AllWhitespace, IsRemainder, WhitespaceRun, TailGap, TailRest;
    TailOfFirst(lead, blocks, c);
    RestAreBlocks(blocks);
    NoMorePrinted(blocks[0].gap, c);
    hide AreBlocks, PrintedAll;
    var b, rest := blocks[0], blocks[1..];
    if rest == [] {
      TailOfEnd(b.gap, c);
    } else {
      TailOfBlocks(b.gap, rest, c);
    }
  }

  /** Think-block round trip: printing blocks in front of an answer and splitting
      gives back the bodies with the whitespace between them, and the answer with
      the whitespace in front of it. */
  lemma SplitOfPrinted(lead: string, blocks: seq<Block>, c: string)
    requires AllWhitespace(lead) && blocks != [] && AreBlocks(blocks)
    requires c == "" || IsAnswer(c)
    ensures Split(lead + PrintedAll(blocks) + c)
      == Parts(JoinedReasoning(blocks), if c == "" then "" else blocks[|blocks| - 1].gap + c)
  {
    hide SplitFrom, AnswerBegan, EndsInPartialTag, AllWhitespace;
    ReadBlocks(lead, blocks, c, false);
    assert "" + JoinedReasoning(blocks) == JoinedReasoning(blocks);
  }

  /** The bodies with all the whitespace behind them. */
  function BodiesAndGaps(blocks: seq<Block>): string {
    if blocks == [] then "" else JoinedReasoning(blocks) + blocks[|blocks| - 1].gap
  }

  /** A block that is still open is shown at once: the whole of its body, unless that ends in
      what may be the start of the closing tag. */
  lemma OpenBlockShown(lead: string, blocks: seq<Block>, body: string)
    requires AllWhitespace(lead) && AreBlocks(blocks) && IndexOf(body, THINK_CLOSE) == -1
    requires EndsInStart(body, THINK_CLOSE, 0)
    ensures Split(lead + PrintedAll(blocks) + (THINK_OPEN + body)) == Parts(BodiesAndGaps(blocks) + body, "")
  {
    hide SplitFrom, AnswerBegan, EndsInPartialTag, IndexOf, TrimPotentialTagSuffix, AreBlocks, AllWhitespace;
    var c := THINK_OPEN + body;
    assert c[|THINK_OPEN|..] == body;
    TrimExactly(body, THINK_CLOSE, body);
    if blocks == [] {
      NoMorePrinted(lead, c);
      OpenAtStart(lead, body);
      assert "" + body == body;
    } else {
      ReadBlocks(lead, blocks, c, false);
      assert "" + JoinedReasoning(blocks) == JoinedReasoning(blocks);
    }
  }

  lemma BodyIs(s: string)
    requires THINK_OPEN <= s[WhitespaceRun(s)..]
    ensures s == s[..WhitespaceRun(s)] + (THINK_OPEN + Body(s))
  {
  }

  lemma BehindIs(body: string, k: nat)
    requires IndexOf(body, THINK_CLOSE) == k
    ensures body == body[..k] + THINK_CLOSE + Behind(body)
  {
    IndexOfFirst(body, THINK_CLOSE);
    hide IndexOf;
  }

  lemma CutBlock(s: string)
    requires THINK_OPEN <= s[WhitespaceRun(s)..] && IndexOf(Body(s), THINK_CLOSE) >= 0
    ensures var gap, k := s[..WhitespaceRun(s)], IndexOf(Body(s), THINK_CLOSE);
      s == gap + (THINK_OPEN + Body(s)[..k] + THINK_CLOSE) + Behind(Body(s))
    ensures |Behind(Body(s))| < |s|
  {
    hide IndexOf, WhitespaceRun, Body, Behind;
    BodyIs(s);
    var gap, body, k := s[..WhitespaceRun(s)], Body(s), IndexOf(Body(s), THINK_CLOSE);
    BehindIs(body, k);
    var cut, t := body[..k], Behind(body);
    assert gap + (THINK_OPEN + (cut + THINK_CLOSE + t)) == gap + (THINK_OPEN + cut + THINK_CLOSE) + t;
  }

  lemma CutBeforeFirst(body: string, k: nat)
    requires IndexOf(body, THINK_CLOSE) == k
    ensures IndexOf(body[..k], THINK_CLOSE) == -1
  {
    IndexOfFirst(body, THINK_CLOSE);
    IndexOfFirst(body[..k], THINK_CLOSE);
    forall j | 0 <= j && j + |THINK_CLOSE| <= k ensures !OccursAt(body[..k], THINK_CLOSE, j) {
      OccursInExtension(body[..k], body[k..], THINK_CLOSE, j);
      assert body[..k] + body[k..] == body;
    }
  }

  lemma RemainderOf(t: string)
    requires !(THINK_OPEN <= t[WhitespaceRun(t)..]) || IndexOf(Body(t), THINK_CLOSE) == -1
    ensures IsRemainder(t[WhitespaceRun(t)..])
  {
    hide IndexOf;
  }

  lemma PrintedFirst(gap: string, first: Block, more: seq<Block>, t: string, c: string)
    requires t == first.gap + PrintedAll(more) + c
    ensures gap + (THINK_OPEN + first.body + THINK_CLOSE) + t == gap + PrintedAll([first] + more) + c
  {
    assert ([first] + more)[1..] == more;
    hide PrintedAll;
    assert gap + (THINK_OPEN + first.body + THINK_CLOSE) + (first.gap + PrintedAll(more) + c)
        == gap + (THINK_OPEN + first.body + THINK_CLOSE + first.gap + PrintedAll(more)) + c;
  }

  /** Every text with a closed leading block is printed blocks and a remainder. */
  lemma {:induction false} BlocksOf(s: string) returns (gap: string, blocks: seq<Block>, c: string)
    requires THINK_OPEN <= s[WhitespaceRun(s)..] && IndexOf(Body(s), THINK_CLOSE) >= 0
    ensures s == gap + PrintedAll(blocks) + c
    ensures AllWhitespace(gap) && blocks != [] && AreBlocks(blocks) && IsRemainder(c)
    decreases |s|
  {
    hide IndexOf, AllWhitespace, IsRemainder, Body, Behind, WhitespaceRun;
    gap := s[..WhitespaceRun(s)];
    var body := Body(s);
    var k := IndexOf(body, THINK_CLOSE);
    var t := Behind(body);
    CutBlock(s);
    CutBeforeFirst(body, k);
    var w := WhitespaceRun(t);
    var inner, more, last := t[..w], [], t[w..];
    if THINK_OPEN <= t[w..] && IndexOf(Body(t), THINK_CLOSE) >= 0 {
      inner, more, last := BlocksOf(t);
    } else {
      RemainderOf(t);
      assert t == inner + PrintedAll(more) + last;
    }
    var first := Block(body[..k], inner);
    blocks, c := [first] + more, last;
    assert blocks[1..] == more;
    PrintedFirst(gap, first, more, t, c);
    assert IsBlock(first);
  }

  lemma OnlyBehindBlock(raw: string)
    requires EndsInPartialTag(raw, false) || AnswerBegan(raw, false)
    ensures THINK_OPEN <= raw[WhitespaceRun(raw)..] && IndexOf(Body(raw), THINK_CLOSE) >= 0
  {
    hide SplitFrom, IndexOf;
  }

  /** The text is printed blocks and a remainder of the given kind. */
  ghost predicate HasShape(raw: string, lead: string, blocks: seq<Block>, c: string) {
    && AllWhitespace(lead) && blocks != [] && AreBlocks(blocks)
    && raw == lead + PrintedAll(blocks) + c
  }

  /** Boundary kind (b) is exactly: complete blocks, a non-empty whitespace run, and a
      non-empty start of an opening tag. */
  lemma PartialTagShape(raw: string)
    ensures EndsInPartialTag(raw, false) <==>
      exists lead: string, blocks: seq<Block>, c: string ::
        HasShape(raw, lead, blocks, c) && IsPartialTag(c) && blocks[|blocks| - 1].gap != ""
  {
    hide SplitFrom, AnswerBegan, EndsInPartialTag, IsAnswer, AllWhitespace;
    hide PrintedAll, AreBlocks, IndexOf, IsUnclosed, IsPartialTag;
    forall lead: string, blocks: seq<Block>, c: string
      | HasShape(raw, lead, blocks, c) && IsPartialTag(c) && blocks[|blocks| - 1].gap != ""
      ensures EndsInPartialTag(raw, false)
    {
      ReadBlocks(lead, blocks, c, false);
    }
    if EndsInPartialTag(raw, false) {
      OnlyBehindBlock(raw);
      var lead, blocks, c := BlocksOf(raw);
      ReadBlocks(lead, blocks, c, false);
      assert HasShape(raw, lead, blocks, c);
    }
  }

  /** An answer behind blocks has begun exactly when the text is complete blocks and
      an answer. */
  lemma AnswerShape(raw: string)
    ensures AnswerBegan(raw, false) <==>
      exists lead: string, blocks: seq<Block>, c: string ::
        HasShape(raw, lead, blocks, c) && IsAnswer(c)
  {
    hide SplitFrom, AnswerBegan, EndsInPartialTag, IsAnswer, AllWhitespace;
    hide PrintedAll, AreBlocks, IndexOf, IsUnclosed, IsPartialTag;
    forall lead: string, blocks: seq<Block>, c: string | HasShape(raw, lead, blocks, c) && IsAnswer(c)
      ensures AnswerBegan(raw, false)
    {
      ReadBlocks(lead, blocks, c, false);
    }
    if AnswerBegan(raw, false) {
      OnlyBehindBlock(raw);
      var lead, blocks, c := BlocksOf(raw);
      ReadBlocks(lead, blocks, c, false);
      assert HasShape(raw, lead, blocks, c);
    }
  }
}
