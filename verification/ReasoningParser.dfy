/** The splitter that separates leading `<think>` blocks from an answer
    (backend/internal/chat/reasoning_parser.go). */
module ReasoningParser {
  import opened Text

  const THINK_OPEN := "<think>"
  const THINK_CLOSE := "</think>"

  datatype Parts = Parts(reasoning: string, content: string)

  predicate IsThinkWhitespace(c: char) {
    c == ' ' || c == '\n' || c == '\r' || c == '\t'
  }

  predicate AllWhitespace(s: string) {
    forall i :: 0 <= i < |s| ==> IsThinkWhitespace(s[i])
  }

  /** Length of the leading whitespace run. */
  function WhitespaceRun(s: string): (n: nat)
    ensures n <= |s| && AllWhitespace(s[..n])
    ensures n < |s| ==> !IsThinkWhitespace(s[n])
  {
    if s == "" || !IsThinkWhitespace(s[0]) then 0
    else
      var m := WhitespaceRun(s[1..]);
      assert s[..m + 1] == [s[0]] + s[1..][..m];
      m + 1
  }

  /** The run is the only length with these two properties. */
  lemma WhitespaceRunIs(s: string, n: nat)
    requires n <= |s| && AllWhitespace(s[..n])
    requires n < |s| ==> !IsThinkWhitespace(s[n])
    ensures WhitespaceRun(s) == n
  {
    var m := WhitespaceRun(s);
    assert forall i :: 0 <= i < n ==> s[..n][i] == s[i];
    assert forall i :: 0 <= i < m ==> s[..m][i] == s[i];
  }

  /** A run that has already ended is not changed by later text. */
  lemma WhitespaceRunExtend(s: string, d: string)
    requires WhitespaceRun(s) < |s|
    ensures WhitespaceRun(s + d) == WhitespaceRun(s)
  {
    var n := WhitespaceRun(s);
    assert (s + d)[..n] == s[..n];
    WhitespaceRunIs(s + d, n);
  }

  predicate IsPotentialThinkPrefix(value: string) {
    |value| < |THINK_OPEN| && value <= THINK_OPEN
  }

  /** The largest proper prefix of `tag`, no longer than `size`, that ends `value`. */
  function Overlap(value: string, tag: string, size: nat): (n: nat)
    requires size <= |value| && size <= |tag|
    ensures n <= size && value[|value| - n..] == tag[..n]
    ensures forall m :: n < m <= size ==> value[|value| - m..] != tag[..m]
  {
    if size == 0 then 0
    else if value[|value| - size..] == tag[..size] then size
    else Overlap(value, tag, size - 1)
  }

  function MaxOverlap(value: string, tag: string): (n: nat)
    requires tag != ""
    ensures n <= |value| && n < |tag|
  {
    Overlap(value, tag, if |value| < |tag| - 1 then |value| else |tag| - 1)
  }

  /** What may safely be shown of `value`: everything before a possible start of `tag`. */
  function TrimPotentialTagSuffix(value: string, tag: string): string
    requires tag != ""
  {
    value[..|value| - MaxOverlap(value, tag)]
  }

  method ComputeTrimPotentialTagSuffix(value: string, tag: string) returns (r: string)
    requires tag != ""
    ensures r == TrimPotentialTagSuffix(value, tag)
  {
    var maxPrefix := |tag| - 1;
    if |value| < maxPrefix {
      maxPrefix := |value|;
    }
    var size := maxPrefix;
    while size > 0
      invariant 0 <= size <= maxPrefix
      invariant MaxOverlap(value, tag) == Overlap(value, tag, size)
    {
      if value[|value| - size..] == tag[..size] {
        return value[..|value| - size];
      }
      size := size - 1;
    }
    return value;
  }

  /** `n` characters at the end of `value` are the longest proper start of `tag` there. */
  ghost predicate EndsInStart(value: string, tag: string, n: nat) {
    && n < |tag| && n <= |value| && value[|value| - n..] == tag[..n]
    && forall m :: n < m < |tag| && m <= |value| ==> value[|value| - m..] != tag[..m]
  }

  lemma OnlyOneStart(value: string, tag: string, n: nat, k: nat)
    requires EndsInStart(value, tag, n) && EndsInStart(value, tag, k)
    ensures n == k
  {
  }

  /** Exactly the longest proper start of the tag at the end is held back. */
  lemma TrimExactly(value: string, tag: string, r: string)
    requires tag != ""
    ensures r == TrimPotentialTagSuffix(value, tag) <==> r <= value && EndsInStart(value, tag, |value| - |r|)
  {
    var n := MaxOverlap(value, tag);
    assert EndsInStart(value, tag, n);
    if r <= value && EndsInStart(value, tag, |value| - |r|) {
      OnlyOneStart(value, tag, n, |value| - |r|);
    }
  }

  /** A potential prefix is text that is no tag yet, and that more text can make one. */
  lemma MayBecomeTag(value: string)
    ensures IsPotentialThinkPrefix(value) <==>
      !(THINK_OPEN <= value) && exists more: string :: THINK_OPEN <= value + more
  {
    if IsPotentialThinkPrefix(value) {
      assert THINK_OPEN <= value + THINK_OPEN[|value|..];
    }
    if more: string :| !(THINK_OPEN <= value) && THINK_OPEN <= value + more {
      assert value <= value + more;
    }
  }

  /** Whitespace between two blocks is reasoning; before the first it is dropped. */
  function Lead(s: string, consumed: bool): string {
    if consumed then s[..WhitespaceRun(s)] else ""
  }

  /** The meaning behind an opening tag, after reasoning `lead`. */
  function SplitOpened(lead: string, body: string): (p: Parts)
    decreases |body|
  {
    var k := IndexOf(body, THINK_CLOSE);
    if k < 0 then Parts(lead + TrimPotentialTagSuffix(body, THINK_CLOSE), "")
    else
      var p := SplitFrom(body[k + |THINK_CLOSE|..], true);
      Parts(lead + body[..k] + p.reasoning, p.content)
  }

  /** The splitter's meaning at a block boundary: `s` is the text still to be
      read and `consumed` tells whether a block has been read already. */
  function SplitFrom(s: string, consumed: bool): (p: Parts)
    decreases |s|
  {
    var w := WhitespaceRun(s);
    var rest := s[w..];
    if rest == "" then Parts("", if consumed then "" else s)
    else if THINK_OPEN <= rest then SplitOpened(Lead(s, consumed), rest[|THINK_OPEN|..])
    else if IsPotentialThinkPrefix(rest) then Parts(Lead(s, consumed), "")
    else Parts("", s)
  }

  /** The batch splitter: the reasoning of the leading blocks, and the answer. */
  function Split(raw: string): (p: Parts) {
    SplitFrom(raw, false)
  }

  function Prepend(reasoning: string, p: Parts): Parts {
    Parts(reasoning + p.reasoning, p.content)
  }

  lemma OpenedLead(lead: string, body: string)
    ensures SplitOpened(lead, body) == Prepend(lead, SplitOpened("", body))
  {
    hide SplitFrom, IndexOf, TrimPotentialTagSuffix;
    var k := IndexOf(body, THINK_CLOSE);
    if k >= 0 {
      var p := SplitFrom(body[k + |THINK_CLOSE|..], true);
      assert lead + body[..k] + p.reasoning == lead + ("" + body[..k] + p.reasoning);
    } else {
      var t := TrimPotentialTagSuffix(body, THINK_CLOSE);
      assert lead + ("" + t) == lead + t;
    }
  }

  lemma OpenedPending(lead: string, body: string)
    requires IndexOf(body, THINK_CLOSE) == -1
    ensures SplitOpened(lead, body) == Parts(lead + TrimPotentialTagSuffix(body, THINK_CLOSE), "")
  {
    hide IndexOf, TrimPotentialTagSuffix;
  }

  lemma OpenedFound(lead: string, body: string, k: nat)
    requires IndexOf(body, THINK_CLOSE) == k
    ensures SplitOpened(lead, body) == Prepend(lead + body[..k], SplitFrom(body[k + |THINK_CLOSE|..], true))
  {
    hide SplitFrom, IndexOf;
  }

  lemma PrependTwice(a: string, b: string, p: Parts)
    ensures Prepend(a, Prepend(b, p)) == Prepend(a + b, p)
  {
    assert a + (b + p.reasoning) == a + b + p.reasoning;
  }

  /** The loop invariant of the splitter at a block boundary. */
  ghost predicate AtBoundary(raw: string, index: nat, reasoning: string, consumed: bool) {
    && index <= |raw|
    && (!consumed ==> index == 0 && reasoning == "")
    && Split(raw) == Prepend(reasoning, SplitFrom(raw[index..], consumed))
  }

  /** Reasoning after the whitespace in front of a tag has been accounted for. */
  ghost function WithLead(raw: string, start: nat, index: nat, reasoning: string, consumed: bool): string
    requires start <= index <= |raw|
  {
    if consumed && start < index then reasoning + raw[start..index] else reasoning
  }

  lemma FromCases(s: string, w: nat, consumed: bool)
    requires w == WhitespaceRun(s)
    ensures var rest := s[w..];
      SplitFrom(s, consumed) == (
        if rest == "" then Parts("", if consumed then "" else s)
        else if THINK_OPEN <= rest then SplitOpened(Lead(s, consumed), rest[|THINK_OPEN|..])
        else if IsPotentialThinkPrefix(rest) then Parts(Lead(s, consumed), "")
        else Parts("", s))
    ensures Lead(s, consumed) == if consumed then s[..w] else ""
  {
    hide SplitOpened, IsPotentialThinkPrefix;
  }

  lemma LeadJoined(raw: string, start: nat, index: nat, reasoning: string, consumed: bool)
    requires start <= index <= |raw| && index - start == WhitespaceRun(raw[start..])
    ensures reasoning + Lead(raw[start..], consumed) == WithLead(raw, start, index, reasoning, consumed)
  {
    assert raw[start..][..index - start] == raw[start..index];
  }

  lemma PrependPlain(reasoning: string, lead: string, content: string)
    ensures Prepend(reasoning, Parts(lead, content)) == Parts(reasoning + lead, content)
    ensures reasoning + "" == reasoning
  {
  }

  lemma LoopCases(raw: string, start: nat, index: nat, reasoning: string, consumed: bool)
    requires AtBoundary(raw, start, reasoning, consumed)
    requires start <= index <= |raw|
    requires forall i :: start <= i < index ==> IsThinkWhitespace(raw[i])
    requires index < |raw| ==> !IsThinkWhitespace(raw[index])
    ensures Split(raw) == (
      if index == |raw| then (if consumed then Parts(reasoning, "") else Parts("", raw))
      else if THINK_OPEN <= raw[index..] then
        Prepend(WithLead(raw, start, index, reasoning, consumed), SplitOpened("", raw[index + |THINK_OPEN|..]))
      else if IsPotentialThinkPrefix(raw[index..]) then
        Parts(WithLead(raw, start, index, reasoning, consumed), "")
      else if consumed then Parts(reasoning, raw[start..])
      else Parts("", raw))
  {
    hide Split, SplitOpened, IsPotentialThinkPrefix, TrimPotentialTagSuffix;
    var s := raw[start..];
    var w := index - start;
    assert s[..w] == raw[start..index];
    WhitespaceRunIs(s, w);
    assert s[w..] == raw[index..];
    assert !consumed ==> s == raw;
    FromCases(s, w, consumed);
    hide SplitFrom, WhitespaceRun, Lead;
    LeadJoined(raw, start, index, reasoning, consumed);
    PrependPlain(reasoning, Lead(s, consumed), "");
    PrependPlain(reasoning, "", s);
    PrependPlain(reasoning, "", if consumed then "" else s);
    if index < |raw| && THINK_OPEN <= raw[index..] {
      var body := raw[index + |THINK_OPEN|..];
      assert raw[index..][|THINK_OPEN|..] == body;
      OpenedLead(Lead(s, consumed), body);
      PrependTwice(reasoning, Lead(s, consumed), SplitOpened("", body));
    }
    hide Prepend, WithLead;
  }

  /** Where the loop goes on behind a closed block. */
  lemma CloseFound(raw: string, index: nat, reasoning: string, k: nat)
    requires index <= |raw| && IndexOf(raw[index..], THINK_CLOSE) == k
    requires Split(raw) == Prepend(reasoning, SplitOpened("", raw[index..]))
    ensures index + k + |THINK_CLOSE| <= |raw|
    ensures AtBoundary(raw, index + k + |THINK_CLOSE|, reasoning + raw[index..index + k], true)
  {
    hide SplitOpened, SplitFrom, Split, IndexOf;
    var body := raw[index..];
    var after := body[k + |THINK_CLOSE|..];
    OpenedFound("", body, k);
    assert after == raw[index + k + |THINK_CLOSE|..];
    assert "" + body[..k] == raw[index..index + k];
    PrependTwice(reasoning, body[..k], SplitFrom(after, true));
  }

  lemma LoopStart(raw: string)
    ensures AtBoundary(raw, 0, "", false)
    ensures raw == "" ==> Split(raw) == Parts("", "")
  {
    assert raw[0..] == raw;
    var p := Split(raw);
    assert "" + p.reasoning == p.reasoning;
  }

  /** The loop of the source, over `index`, computes `Split`. */
  method SplitLeadingReasoningContent(raw: string) returns (r: Parts)
    ensures r == Split(raw)
  {
    hide Split, SplitFrom, SplitOpened, IndexOf, IsPotentialThinkPrefix, TrimPotentialTagSuffix;
    LoopStart(raw);
    if raw == "" {
      return Parts("", "");
    }
    var index := 0;
    var reasoning := "";
    var consumedLeadingThink := false;
    while true
      invariant AtBoundary(raw, index, reasoning, consumedLeadingThink)
      decreases |raw| - index
    {
      var whitespaceStart := index;
      while index < |raw| && IsThinkWhitespace(raw[index])
        invariant whitespaceStart <= index <= |raw|
        invariant forall i :: whitespaceStart <= i < index ==> IsThinkWhitespace(raw[i])
      {
        index := index + 1;
      }
      LoopCases(raw, whitespaceStart, index, reasoning, consumedLeadingThink);

      if index >= |raw| {
        if consumedLeadingThink {
          return Parts(reasoning, "");
        }
        return Parts("", raw);
      }

      var remaining := raw[index..];
      if THINK_OPEN <= remaining {
        if consumedLeadingThink && whitespaceStart < index {
          reasoning := reasoning + raw[whitespaceStart..index];
        }
        consumedLeadingThink := true;
        index := index + |THINK_OPEN|;

        var closeIndex := IndexOf(raw[index..], THINK_CLOSE);
        if closeIndex == -1 {
          OpenedPending("", raw[index..]);
          var trimmed := ComputeTrimPotentialTagSuffix(raw[index..], THINK_CLOSE);
          return Parts(reasoning + trimmed, "");
        }
        CloseFound(raw, index, reasoning, closeIndex);
        reasoning := reasoning + raw[index..index + closeIndex];
        index := index + closeIndex + |THINK_CLOSE|;
      } else if IsPotentialThinkPrefix(remaining) {
        if consumedLeadingThink && whitespaceStart < index {
          reasoning := reasoning + raw[whitespaceStart..index];
        }
        return Parts(reasoning, "");
      } else if consumedLeadingThink {
        return Parts(reasoning, raw[whitespaceStart..]);
      } else {
        return Parts("", raw);
      }
    }
  }
}
