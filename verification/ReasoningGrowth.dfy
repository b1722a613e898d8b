/** How the splitter's result changes when more text arrives behind what it has
    already seen (backend/internal/chat/reasoning_parser.go:83-183). */
module ReasoningGrowth {
  import opened Text
  import opened ReasoningParser

  /** Text whose last read is complete blocks, then a non-empty whitespace run,
      then a non-empty start of an opening tag. */
  predicate EndsInPartialTag(s: string, consumed: bool)
    decreases |s|
  {
    var w := WhitespaceRun(s);
    var rest := s[w..];
    if THINK_OPEN <= rest then
      var body := rest[|THINK_OPEN|..];
      var k := IndexOf(body, THINK_CLOSE);
      k >= 0 && EndsInPartialTag(body[k + |THINK_CLOSE|..], true)
    else
      consumed && w > 0 && rest != "" && IsPotentialThinkPrefix(rest)
  }

  /** Text whose answer has begun behind at least one complete block. */
  predicate AnswerBegan(s: string, consumed: bool)
    decreases |s|
  {
    var w := WhitespaceRun(s);
    var rest := s[w..];
    if THINK_OPEN <= rest then
      var body := rest[|THINK_OPEN|..];
      var k := IndexOf(body, THINK_CLOSE);
      k >= 0 && AnswerBegan(body[k + |THINK_CLOSE|..], true)
    else
      consumed && rest != "" && !IsPotentialThinkPrefix(rest)
  }

  /** The text behind its last complete leading block, or all of it. */
  function Tail(s: string): (t: string)
    ensures |t| <= |s|
    decreases |s|
  {
    var rest := s[WhitespaceRun(s)..];
    if THINK_OPEN <= rest then
      var body := rest[|THINK_OPEN|..];
      var k := IndexOf(body, THINK_CLOSE);
      if k >= 0 then Tail(body[k + |THINK_CLOSE|..]) else s
    else s
  }

  /** The whitespace at the start of that text, and what follows it. */
  function TailGap(s: string): string {
    Tail(s)[..WhitespaceRun(Tail(s))]
  }

  function TailRest(s: string): string {
    Tail(s)[WhitespaceRun(Tail(s))..]
  }

  /** Text that starts with a tag, or with what may become one. */
  predicate StartsWithTag(s: string) {
    var rest := s[WhitespaceRun(s)..];
    rest != "" && (THINK_OPEN <= rest || IsPotentialThinkPrefix(rest))
  }

  /** The start of a tag at the end of `s`, with the new text, is no tag after all. */
  predicate TagWasText(s: string, d: string, consumed: bool) {
    EndsInPartialTag(s, consumed) && !(THINK_OPEN <= TailRest(s) + d) && !IsPotentialThinkPrefix(TailRest(s) + d)
  }

  /** All-whitespace text `s`, with the new text, is not the start of the answer: what
      follows may be a tag, and the answer behind the blocks, if it has begun, does not
      start with that whitespace. */
  predicate BlankWasNoText(s: string, d: string) {
    && s != "" && AllWhitespace(s) && StartsWithTag(s + d)
    && !(AnswerBegan(s + d, false) && s <= TailGap(s + d))
  }

  /** The whitespace in front of the answer. */
  function AnswerGap(p: Parts): string {
    p.content[..WhitespaceRun(p.content)]
  }

  // ---------------------------------------------------------------- suffixes

  lemma OverlapOfPrefix(v: string, d: string, tag: string, o: nat)
    requires |d| < o <= |v + d| && o < |tag|
    requires (v + d)[|v + d| - o..] == tag[..o]
    ensures o - |d| <= |v| && v[|v| - (o - |d|)..] == tag[..o - |d|]
  {
    var m := o - |d|;
    assert forall i :: 0 <= i < m ==>
      v[|v| - m..][i] == (v + d)[|v + d| - o..][i] && tag[..m][i] == tag[..o][i];
  }

  /** What is held back at the end of a text shrinks the shown part never. */
  lemma TrimGrows(v: string, d: string, tag: string)
    requires tag != ""
    ensures TrimPotentialTagSuffix(v, tag) <= TrimPotentialTagSuffix(v + d, tag)
  {
    var o := MaxOverlap(v + d, tag);
    var p := MaxOverlap(v, tag);
    if o > |d| {
      var m := o - |d|;
      OverlapOfPrefix(v, d, tag, o);
      assert m <= p;
    }
    assert |v| - p <= |v + d| - o;
    assert (v + d)[..|v| - p] == v[..|v| - p];
  }

  /** The shown part never runs into a closing tag that is still incomplete. */
  lemma TrimStopsAtClose(v: string, d: string, tag: string, k: nat)
    requires tag != "" && !OccursAt(v, tag, k) && OccursAt(v + d, tag, k)
    ensures TrimPotentialTagSuffix(v, tag) <= (v + d)[..k]
  {
    var p := MaxOverlap(v, tag);
    if k < |v| {
      var m := |v| - k;
      if m >= |tag| {
        OccursInExtension(v, d, tag, k);
      }
      assert forall i :: 0 <= i < m ==> v[k..][i] == (v + d)[k..k + |tag|][i] && tag[..m][i] == tag[i];
      assert v[|v| - m..] == tag[..m];
      assert m <= p;
    }
    assert (v + d)[..k][..|v| - p] == v[..|v| - p];
  }

  // ---------------------------------------------------------------- one step

  lemma OpensExtend(s: string, d: string)
    requires WhitespaceRun(s) < |s|
    ensures WhitespaceRun(s + d) == WhitespaceRun(s)
    ensures (s + d)[WhitespaceRun(s)..] == s[WhitespaceRun(s)..] + d
    ensures forall consumed :: Lead(s + d, consumed) == Lead(s, consumed)
  {
    WhitespaceRunExtend(s, d);
    assert (s + d)[..WhitespaceRun(s)] == s[..WhitespaceRun(s)];
  }

  lemma TagExtend(rest: string, d: string)
    ensures THINK_OPEN <= rest ==>
      THINK_OPEN <= rest + d && (rest + d)[|THINK_OPEN|..] == rest[|THINK_OPEN|..] + d
    ensures !(THINK_OPEN <= rest) && !IsPotentialThinkPrefix(rest) ==>
      !(THINK_OPEN <= rest + d) && !IsPotentialThinkPrefix(rest + d)
    ensures rest != "" ==> rest + d != ""
  {
    if |rest| < |THINK_OPEN| {
      assert rest <= rest + d;
      assert THINK_OPEN <= rest + d ==> rest <= THINK_OPEN;
    }
  }

  ghost function Body(s: string): string
    requires THINK_OPEN <= s[WhitespaceRun(s)..]
  {
    s[WhitespaceRun(s)..][|THINK_OPEN|..]
  }

  ghost function Behind(body: string): string
    requires IndexOf(body, THINK_CLOSE) >= 0
  {
    body[IndexOf(body, THINK_CLOSE) + |THINK_CLOSE|..]
  }

  lemma ReadOpened(s: string, consumed: bool)
    requires THINK_OPEN <= s[WhitespaceRun(s)..]
    ensures SplitFrom(s, consumed) == SplitOpened(Lead(s, consumed), Body(s))
    ensures IndexOf(Body(s), THINK_CLOSE) < 0 ==>
      !EndsInPartialTag(s, consumed) && !AnswerBegan(s, consumed) && Tail(s) == s
    ensures IndexOf(Body(s), THINK_CLOSE) >= 0 ==>
      && EndsInPartialTag(s, consumed) == EndsInPartialTag(Behind(Body(s)), true)
      && AnswerBegan(s, consumed) == AnswerBegan(Behind(Body(s)), true)
      && Tail(s) == Tail(Behind(Body(s)))
      && |Behind(Body(s))| < |s|
  {
    hide SplitOpened, IndexOf;
  }

  lemma ReadBlank(s: string, consumed: bool)
    requires WhitespaceRun(s) == |s|
    ensures SplitFrom(s, consumed) == Parts("", if consumed then "" else s)
    ensures !EndsInPartialTag(s, consumed) && !AnswerBegan(s, consumed)
    ensures AllWhitespace(s)
  {
    hide SplitOpened, IndexOf;
    assert s[..|s|] == s;
    assert s[|s|..] == "";
  }

  lemma ReadUnopened(s: string, consumed: bool)
    requires WhitespaceRun(s) < |s| && !(THINK_OPEN <= s[WhitespaceRun(s)..])
    ensures var potential := IsPotentialThinkPrefix(s[WhitespaceRun(s)..]);
      && SplitFrom(s, consumed) == (if potential then Parts(Lead(s, consumed), "") else Parts("", s))
      && EndsInPartialTag(s, consumed) == (consumed && WhitespaceRun(s) > 0 && potential)
      && AnswerBegan(s, consumed) == (consumed && !potential)
      && Tail(s) == s
  {
    hide SplitOpened, IndexOf, IsPotentialThinkPrefix, Lead;
  }

  predicate IsSuffix(c: string, s: string) {
    |c| <= |s| && s[|s| - |c|..] == c
  }

  /** The answer is always the end of the text. */
  lemma {:induction false} ContentIsSuffix(s: string, consumed: bool)
    ensures IsSuffix(SplitFrom(s, consumed).content, s)
    decreases |s|
  {
    hide SplitFrom, SplitOpened, IndexOf, EndsInPartialTag, AnswerBegan, Tail, TrimPotentialTagSuffix;
    if WhitespaceRun(s) == |s| {
      ReadBlank(s, consumed);
    } else if !(THINK_OPEN <= s[WhitespaceRun(s)..]) {
      ReadUnopened(s, consumed);
    } else if IndexOf(Body(s), THINK_CLOSE) < 0 {
      ReadOpened(s, consumed);
      OpenedPending(Lead(s, consumed), Body(s));
    } else {
      ReadOpened(s, consumed);
      OpenedFound(Lead(s, consumed), Body(s), IndexOf(Body(s), THINK_CLOSE));
      ContentIsSuffix(Behind(Body(s)), true);
      assert IsSuffix(Behind(Body(s)), s);
    }
  }

  /** The answer of any text: what is behind the blocks once that is an answer, and before
      the first block all text, unless it may start a tag. */
  lemma {:induction false} ContentIs(s: string, consumed: bool)
    ensures SplitFrom(s, consumed).content ==
      if AnswerBegan(s, consumed) then Tail(s)
      else if consumed || StartsWithTag(s) then "" else s
    decreases |s|
  {
    hide SplitFrom, SplitOpened, IndexOf, EndsInPartialTag, AnswerBegan, Tail, IsPotentialThinkPrefix;
    if WhitespaceRun(s) == |s| {
      ReadBlank(s, consumed);
    } else if !(THINK_OPEN <= s[WhitespaceRun(s)..]) {
      ReadUnopened(s, consumed);
    } else if IndexOf(Body(s), THINK_CLOSE) < 0 {
      ReadOpened(s, consumed);
      OpenedPending(Lead(s, consumed), Body(s));
    } else {
      ReadOpened(s, consumed);
      OpenedFound(Lead(s, consumed), Body(s), IndexOf(Body(s), THINK_CLOSE));
      ContentIs(Behind(Body(s)), true);
    }
  }

  lemma {:induction false} AnswerStartsSolid(s: string, consumed: bool)
    requires AnswerBegan(s, consumed)
    ensures TailRest(s) != "" && (consumed || StartsWithTag(s))
    decreases |s|
  {
    hide IndexOf, EndsInPartialTag, AnswerBegan, Tail, IsPotentialThinkPrefix;
    if WhitespaceRun(s) == |s| {
      ReadBlank(s, consumed);
    } else if !(THINK_OPEN <= s[WhitespaceRun(s)..]) {
      ReadUnopened(s, consumed);
    } else {
      ReadOpened(s, consumed);
      AnswerStartsSolid(Behind(Body(s)), true);
    }
  }

  lemma LongerIsNotBlank(s: string, t: string)
    requires s <= t && WhitespaceRun(t) < |s|
    ensures !AllWhitespace(s)
  {
    assert !IsThinkWhitespace(s[WhitespaceRun(t)]);
  }

  /** Whitespace starts a text exactly if it starts the text's own whitespace. */
  lemma BlankInGap(s: string, t: string)
    requires AllWhitespace(s)
    ensures s <= t <==> s <= t[..WhitespaceRun(t)]
  {
    var w := WhitespaceRun(t);
    if s <= t && w < |s| {
      LongerIsNotBlank(s, t);
    } else if s <= t {
      assert t[..w][..|s|] == t[..|s|];
    }
  }

  /** Blank text stays in front of the answer exactly if it was not withdrawn. */
  lemma BlankStays(s: string, d: string)
    requires s != "" && AllWhitespace(s)
    ensures s <= SplitFrom(s + d, false).content <==> !BlankWasNoText(s, d)
  {
    hide SplitFrom, AnswerBegan, Tail, StartsWithTag, AllWhitespace, WhitespaceRun;
    ContentIs(s + d, false);
    if AnswerBegan(s + d, false) {
      AnswerStartsSolid(s + d, false);
      BlankInGap(s, Tail(s + d));
    }
  }

  /** What one more piece of text may do to the split. */
  ghost predicate Grew(s: string, p: Parts, q: Parts, d: string, consumed: bool) {
    && (p.reasoning <= q.reasoning || TagWasText(s, d, consumed))
    && (TagWasText(s, d, consumed) ==>
          && AnswerBegan(s + d, consumed)
          && p.reasoning == q.reasoning + AnswerGap(q)
          && AnswerGap(q) != "")
    && (if !consumed && s != "" && AllWhitespace(s)
        then p.content == s && (s <= q.content <==> !BlankWasNoText(s, d))
        else p.content <= q.content)
    && (AnswerBegan(s, consumed) ==>
        AnswerBegan(s + d, consumed) && q.reasoning == p.reasoning && q.content == p.content + d)
  }

  lemma GrewBlank(s: string, d: string, consumed: bool)
    requires WhitespaceRun(s) == |s|
    ensures Grew(s, SplitFrom(s, consumed), SplitFrom(s + d, consumed), d, consumed)
  {
    hide SplitFrom, EndsInPartialTag, AnswerBegan, AllWhitespace, BlankWasNoText;
    ReadBlank(s, consumed);
    if s != "" {
      BlankStays(s, d);
    }
  }

  lemma NotBlank(s: string)
    requires WhitespaceRun(s) < |s|
    ensures !AllWhitespace(s)
  {
    assert !IsThinkWhitespace(s[WhitespaceRun(s)]);
  }

  lemma GrewPending(s: string, d: string, consumed: bool)
    requires THINK_OPEN <= s[WhitespaceRun(s)..]
    requires IndexOf(Body(s), THINK_CLOSE) < 0
    ensures Grew(s, SplitFrom(s, consumed), SplitFrom(s + d, consumed), d, consumed)
  {
    hide SplitFrom, SplitOpened, IndexOf, TrimPotentialTagSuffix, EndsInPartialTag, AnswerBegan, AllWhitespace, Tail;
    var lead, body := Lead(s, consumed), Body(s);
    NotBlank(s);
    OpensExtend(s, d);
    TagExtend(s[WhitespaceRun(s)..], d);
    ReadOpened(s, consumed);
    ReadOpened(s + d, consumed);
    assert Body(s + d) == body + d;
    OpenedPending(lead, body);
    var k := IndexOf(body + d, THINK_CLOSE);
    if k < 0 {
      OpenedPending(lead, body + d);
      TrimGrows(body, d, THINK_CLOSE);
    } else {
      OpenedFound(lead, body + d, k);
      IndexOfFirst(body, THINK_CLOSE);
      IndexOfFirst(body + d, THINK_CLOSE);
      TrimStopsAtClose(body, d, THINK_CLOSE, k);
    }
  }

  /** The same text behind a closed block. */
  lemma GrewBehind(s: string, t: string, d: string, lead: string, consumed: bool)
    requires Grew(t, SplitFrom(t, true), SplitFrom(t + d, true), d, true) && !AllWhitespace(s)
    requires EndsInPartialTag(s, consumed) == EndsInPartialTag(t, true) && Tail(s) == Tail(t)
    requires AnswerBegan(s, consumed) == AnswerBegan(t, true)
    requires AnswerBegan(s + d, consumed) == AnswerBegan(t + d, true)
    ensures Grew(s, Prepend(lead, SplitFrom(t, true)), Prepend(lead, SplitFrom(t + d, true)), d, consumed)
  {
    hide SplitFrom, EndsInPartialTag, AnswerBegan, AllWhitespace, Tail, IsPotentialThinkPrefix, WhitespaceRun;
    var p, q := SplitFrom(t, true), SplitFrom(t + d, true);
    Regroup(lead, q.reasoning, AnswerGap(q));
  }

  lemma GrewClosed(s: string, d: string, consumed: bool)
    requires THINK_OPEN <= s[WhitespaceRun(s)..]
    requires IndexOf(Body(s), THINK_CLOSE) >= 0
    requires var t := Behind(Body(s)); Grew(t, SplitFrom(t, true), SplitFrom(t + d, true), d, true)
    ensures Grew(s, SplitFrom(s, consumed), SplitFrom(s + d, consumed), d, consumed)
  {
    hide SplitFrom, SplitOpened, IndexOf, EndsInPartialTag, AnswerBegan;
    hide AllWhitespace, WhitespaceRun, Tail, IsPotentialThinkPrefix;
    NotBlank(s);
    var body := Body(s);
    var k := IndexOf(body, THINK_CLOSE);
    OpensExtend(s, d);
    TagExtend(s[WhitespaceRun(s)..], d);
    IndexOfExtend(body, d, THINK_CLOSE);
    assert Body(s + d) == body + d;
    assert (body + d)[..k] == body[..k];
    assert Behind(body + d) == Behind(body) + d;
    ReadOpened(s, consumed);
    ReadOpened(s + d, consumed);
    var lead := Lead(s, consumed) + body[..k];
    OpenedFound(Lead(s, consumed), body, k);
    OpenedFound(Lead(s, consumed), body + d, k);
    hide Grew, Body, Behind, Lead, Prepend;
    GrewBehind(s, Behind(body), d, lead, consumed);
  }

  lemma PrefixOfSum(tag: string, a: string, b: string)
    requires tag <= a + b && |tag| <= |a|
    ensures tag <= a
  {
    assert (a + b)[..|tag|] == a[..|tag|];
  }

  /** An answer behind a tag that `d` completes lies within `d`. */
  lemma ReopenedIsShort(s: string, d: string, consumed: bool)
    requires WhitespaceRun(s) < |s| && !(THINK_OPEN <= s[WhitespaceRun(s)..])
    requires THINK_OPEN <= s[WhitespaceRun(s)..] + d
    ensures |SplitFrom(s + d, consumed).content| <= |d|
  {
    hide SplitFrom, SplitOpened, IndexOf, Tail, AnswerBegan;
    hide EndsInPartialTag, TrimPotentialTagSuffix, IsPotentialThinkPrefix;
    OpensExtend(s, d);
    ReadOpened(s + d, consumed);
    var lead, body := Lead(s, consumed), Body(s + d);
    assert |s[WhitespaceRun(s)..]| <= |THINK_OPEN| by {
      var rest := s[WhitespaceRun(s)..];
      if |rest| > |THINK_OPEN| {
        PrefixOfSum(THINK_OPEN, rest, d);
      }
    }
    if IndexOf(body, THINK_CLOSE) < 0 {
      OpenedPending(lead, body);
    } else {
      OpenedFound(lead, body, IndexOf(body, THINK_CLOSE));
      ContentIsSuffix(Behind(body), true);
    }
  }

  lemma GrewAtEnd(s: string, d: string, consumed: bool)
    requires WhitespaceRun(s) < |s| && !(THINK_OPEN <= s[WhitespaceRun(s)..])
    ensures Grew(s, SplitFrom(s, consumed), SplitFrom(s + d, consumed), d, consumed)
  {
    hide SplitFrom, SplitOpened, IndexOf, AllWhitespace, EndsInPartialTag;
    hide AnswerBegan, WhitespaceRun, IsPotentialThinkPrefix, Tail;
    NotBlank(s);
    var rest := s[WhitespaceRun(s)..];
    OpensExtend(s, d);
    TagExtend(rest, d);
    ReadUnopened(s, consumed);
    if THINK_OPEN <= rest + d {
      ReadOpened(s + d, consumed);
      OpenedLead(Lead(s, consumed), Body(s + d));
      ReopenedIsShort(s, d, consumed);
    } else {
      ReadUnopened(s + d, consumed);
    }
  }

  /** Later text extends both parts, except at the two kinds of boundary that
      `Grew` names. */
  lemma {:induction false} SplitGrows(s: string, d: string, consumed: bool)
    ensures Grew(s, SplitFrom(s, consumed), SplitFrom(s + d, consumed), d, consumed)
    decreases |s|
  {
    hide SplitFrom, EndsInPartialTag, AnswerBegan, IndexOf, Grew;
    if WhitespaceRun(s) == |s| {
      GrewBlank(s, d, consumed);
    } else if !(THINK_OPEN <= s[WhitespaceRun(s)..]) {
      GrewAtEnd(s, d, consumed);
    } else if IndexOf(Body(s), THINK_CLOSE) < 0 {
      GrewPending(s, d, consumed);
    } else {
      SplitGrows(Behind(Body(s)), d, true);
      GrewClosed(s, d, consumed);
    }
  }
}
