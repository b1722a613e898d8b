/** Exporting messages with their attachments
    (frontend/src/pages/chat-page/conversation-transfer-utils.ts:6-44). */
module MarkdownExport {
  import opened Text
  import opened MarkdownLines
  import opened MarkdownTransfer

  datatype Attachment = Attachment(name: string, url: string, image: bool)

  /** A message as the chat shows it. */
  datatype ChatMessage = ChatMessage(role: Role, content: string, attachments: seq<Attachment>)

  function LinkLine(a: Attachment): (line: string)
    ensures line != ""
  {
    (if a.image then "!" else "") + "[" + a.name + "](" + a.url + ")"
  }

  function LinkLines(attachments: seq<Attachment>): (lines: seq<string>)
    ensures |lines| == |attachments|
  {
    if attachments == [] then []
    else LinkLines(attachments[..|attachments| - 1]) + [LinkLine(attachments[|attachments| - 1])]
  }

  /** Reads a link line: the name up to the first `](`, the url up to the last character. */
  function ReadLink(line: string): Option<Attachment> {
    var image := "!" <= line;
    var link := if image then line[1..] else line;
    var k := IndexOf(link, "](");
    if k < 1 || |link| < k + 3 then None
    else Some(Attachment(link[1..k], link[k + 2..|link| - 1], image))
  }

  function Bracketed(a: Attachment): string {
    "[" + a.name + "](" + a.url + ")"
  }

  lemma LinkLineIs(a: Attachment)
    ensures LinkLine(a) == if a.image then "!" + Bracketed(a) else Bracketed(a)
    ensures "!" <= LinkLine(a) <==> a.image
    ensures ("!" + Bracketed(a))[1..] == Bracketed(a)
  {
    var b := "[" + a.name;
    assert "!" + "[" + a.name == "!" + b && "" + "[" + a.name == b;
    Regroup("!", b, "](");
    Regroup("!", b + "](", a.url);
    Regroup("!", b + "](" + a.url, ")");
    assert Bracketed(a)[0] == '[';
  }

  lemma OccursWhere(s: string, j: nat)
    ensures OccursAt(s, "](", j) <==> j + 1 < |s| && s[j] == ']' && s[j + 1] == '('
  {
    if j + 1 < |s| {
      assert s[j..j + 2] == [s[j], s[j + 1]];
    }
  }

  lemma BracketCharacters(a: Attachment)
    ensures var link, n := Bracketed(a), 1 + |a.name|;
      && |link| > n + 1 && link[0] == '[' && link[n] == ']' && link[n + 1] == '('
      && forall i :: 0 < i < n ==> link[i] == a.name[i - 1]
  {
  }

  lemma FirstBracket(a: Attachment)
    requires IndexOf(a.name, "](") == -1
    ensures IndexOf(Bracketed(a), "](") == 1 + |a.name|
  {
    var link, n := Bracketed(a), 1 + |a.name|;
    BracketCharacters(a);
    IndexOfFirst(a.name, "](");
    hide IndexOf, OccursAt, Bracketed;
    OccursWhere(link, n);
    forall j | 0 <= j < n ensures !OccursAt(link, "](", j) {
      OccursWhere(link, j);
      if 0 < j {
        OccursWhere(a.name, j - 1);
      }
    }
    IndexOfIs(link, "](", n);
  }

  lemma BracketSlices(a: Attachment)
    ensures var link, n := Bracketed(a), 1 + |a.name|;
      && |link| == n + 2 + |a.url| + 1
      && link[1..n] == a.name && link[n + 2..|link| - 1] == a.url
  {
    var link, n := Bracketed(a), 1 + |a.name|;
    var head := "[" + a.name;
    assert head[1..] == a.name;
    assert link == head + ("](" + a.url + ")");
    assert link[..n] == head;
    assert link[1..n] == link[..n][1..];
    var before := head + "](";
    assert link == before + (a.url + ")");
    assert link[|before|..] == a.url + ")";
    assert link[|before|..|link| - 1] == link[|before|..][..|a.url|];
  }

  /** A link line tells the name from the url, and an image from a file. */
  lemma LinkReads(a: Attachment)
    requires IndexOf(a.name, "](") == -1
    ensures ReadLink(LinkLine(a)) == Some(a)
  {
    LinkLineIs(a);
    FirstBracket(a);
    BracketSlices(a);
    hide LinkLine, IndexOf, Bracketed;
  }

  function ChatItems(m: ChatMessage, locale: Locale): seq<string> {
    ["## " + RoleLabel(locale, m.role), ""]
    + (if m.attachments == [] then [] else LinkLines(m.attachments) + [""])
    + (if m.content == "" then [] else [m.content, ""])
  }

  function AllChatItems(messages: seq<ChatMessage>, locale: Locale): seq<string> {
    if messages == [] then []
    else AllChatItems(messages[..|messages| - 1], locale) + ChatItems(messages[|messages| - 1], locale)
  }

  /** `buildConversationMarkdown` */
  function ChatExported(h: Heading, locale: Locale, messages: seq<ChatMessage>): string {
    Join(HeaderItems(h, locale) + AllChatItems(messages, locale))
  }

  method PushMessage(lines: seq<string>, message: ChatMessage, locale: Locale) returns (r: seq<string>)
    ensures r == lines + ChatItems(message, locale)
  {
    hide RoleLabel, LinkLine;
    ghost var head := ["## " + RoleLabel(locale, message.role), ""];
    r := lines + ["## " + RoleLabel(locale, message.role)];
    r := r + [""];
    assert r == lines + head;
    if |message.attachments| > 0 {
      ghost var before := r;
      for i := 0 to |message.attachments|
        invariant r == before + LinkLines(message.attachments[..i])
      {
        assert message.attachments[..i + 1][..i] == message.attachments[..i];
        r := r + [LinkLine(message.attachments[i])];
      }
      assert message.attachments[..|message.attachments|] == message.attachments;
      r := r + [""];
      hide LinkLines;
      assert r == lines + (head + (LinkLines(message.attachments) + [""]));
    }
    if message.content != "" {
      r := r + [message.content];
      r := r + [""];
    }
    hide LinkLines;
  }

  method BuildConversationMarkdown(h: Heading, locale: Locale, messages: seq<ChatMessage>) returns (text: string)
    ensures text == ChatExported(h, locale, messages)
  {
    hide HeaderItems, ChatItems, Join;
    var lines := HeaderItems(h, locale);
    ghost var header := lines;
    assert header + [] == header;
    for i := 0 to |messages|
      invariant lines == header + AllChatItems(messages[..i], locale)
    {
      assert messages[..i + 1][..i] == messages[..i];
      Regroup(header, AllChatItems(messages[..i], locale), ChatItems(messages[i], locale));
      lines := PushMessage(lines, messages[i], locale);
    }
    assert messages[..|messages|] == messages;
    return Join(lines);
  }

  // ---------------------------------------- attachments are part of the text

  /** The message that the text stands for: its links, a blank line, and its content. */
  function Rendered(m: ChatMessage): Message {
    var links := Join(LinkLines(m.attachments));
    Message(m.role,
            if m.attachments == [] then m.content
            else if m.content == "" then links
            else links + "\n\n" + m.content)
  }

  function RenderedAll(messages: seq<ChatMessage>): (r: seq<Message>)
    ensures |r| == |messages| && forall i :: 0 <= i < |r| ==> r[i] == Rendered(messages[i])
  {
    seq(|messages|, i requires 0 <= i < |messages| => Rendered(messages[i]))
  }

  lemma {:induction false} JoinSum(a: seq<string>, b: seq<string>)
    requires a != [] && b != []
    ensures Join(a + b) == Join(a) + "\n" + Join(b)
    decreases |a|
  {
    hide Join;
    JoinStep(a[0], a[1..] + b);
    JoinStep(a[0], a[1..]);
    assert a == [a[0]] + a[1..];
    assert a + b == [a[0]] + (a[1..] + b);
    if |a| == 1 {
      assert a[1..] == [] && a[1..] + b == b;
    } else {
      JoinSum(a[1..], b);
      Regroup(a[0] + "\n", Join(a[1..]) + "\n", Join(b));
      Regroup(a[0] + "\n", Join(a[1..]), "\n");
    }
  }

  lemma JoinOne(line: string)
    ensures Join([line]) == line
  {
  }

  lemma JoinPair(line: string)
    ensures Join([line, ""]) == line + "\n"
  {
    assert [line, ""][1..] == [""];
  }

  lemma LinksNotEmpty(attachments: seq<Attachment>)
    requires attachments != []
    ensures Join(LinkLines(attachments)) != ""
  {
    var n := |attachments| - 1;
    hide LinkLine;
    var lines := LinkLines(attachments[..n]);
    if lines != [] {
      JoinSum(lines, [LinkLine(attachments[n])]);
    } else {
      assert lines + [LinkLine(attachments[n])] == [LinkLine(attachments[n])];
    }
  }

  lemma TwoBreaks(links: string, c: string)
    ensures links + "\n" + "\n" + (c + "\n") == links + "\n\n" + c + "\n"
  {
    assert links + "\n" + "\n" == links + "\n\n";
  }

  /** One section reads the same either way. */
  lemma SectionIsRendered(m: ChatMessage, locale: Locale)
    ensures Join(ChatItems(m, locale)) == Join(MessageItems(Rendered(m), locale))
  {
    hide RoleLabel, LinkLines, Join;
    var head := ["## " + RoleLabel(locale, m.role), ""];
    var links := LinkLines(m.attachments);
    var c := m.content;
    if m.attachments == [] {
      assert ChatItems(m, locale) == MessageItems(Rendered(m), locale);
    } else {
      LinksNotEmpty(m.attachments);
      var body := Rendered(m).content;
      assert MessageItems(Rendered(m), locale) == head + [body, ""];
      JoinSum(head, [body, ""]);
      JoinPair(body);
      JoinSum(links, [""]);
      JoinOne("");
      assert Join(links + [""]) == Join(links) + "\n" by { assert Join(links) + "\n" + "" == Join(links) + "\n"; }
      if c == "" {
        assert ChatItems(m, locale) == head + (links + [""]);
        JoinSum(head, links + [""]);
      } else {
        assert ChatItems(m, locale) == head + ((links + [""]) + [c, ""]);
        JoinSum(head, (links + [""]) + [c, ""]);
        JoinSum(links + [""], [c, ""]);
        JoinPair(c);
        TwoBreaks(Join(links), c);
      }
    }
  }

  lemma SectionsNotEmpty(m: ChatMessage, locale: Locale)
    ensures ChatItems(m, locale) != [] && MessageItems(Rendered(m), locale) != []
  {
  }

  lemma LastChat(messages: seq<ChatMessage>, locale: Locale)
    requires messages != []
    ensures AllChatItems(messages, locale)
      == AllChatItems(messages[..|messages| - 1], locale) + ChatItems(messages[|messages| - 1], locale)
  {
    hide ChatItems;
  }

  lemma LastPlain(messages: seq<Message>, locale: Locale)
    requires messages != []
    ensures AllItems(messages, locale)
      == AllItems(messages[..|messages| - 1], locale) + MessageItems(messages[|messages| - 1], locale)
  {
    hide MessageItems;
  }

  /** A list of texts after one text. */
  lemma {:induction false} AllRendered(header: seq<string>, messages: seq<ChatMessage>, locale: Locale)
    requires header != []
    ensures Join(header + AllChatItems(messages, locale)) == Join(header + AllItems(RenderedAll(messages), locale))
  {
    hide ChatItems, MessageItems, Join, Rendered;
    if messages == [] {
      assert RenderedAll(messages) == [];
    } else {
      var n := |messages| - 1;
      var plain := RenderedAll(messages);
      AllRendered(header, messages[..n], locale);
      assert RenderedAll(messages[..n]) == plain[..n];
      SectionIsRendered(messages[n], locale);
      SectionsNotEmpty(messages[n], locale);
      var a, b := AllChatItems(messages[..n], locale), AllItems(plain[..n], locale);
      var x, y := ChatItems(messages[n], locale), MessageItems(plain[n], locale);
      hide AllChatItems, AllItems;
      Regroup(header, a, x);
      Regroup(header, b, y);
      JoinSum(header + a, x);
      JoinSum(header + b, y);
      assert AllChatItems(messages, locale) == a + x by { LastChat(messages, locale); }
      assert AllItems(plain, locale) == b + y by { LastPlain(plain, locale); }
    }
  }

  /** An export is that of the same messages with their attachments written into the text. */
  lemma ExportIsRendered(h: Heading, locale: Locale, messages: seq<ChatMessage>)
    ensures ChatExported(h, locale, messages) == Exported(h, locale, RenderedAll(messages))
  {
    HeaderNotEmpty(h, locale);
    AllRendered(HeaderItems(h, locale), messages, locale);
  }

  /** Exporting any messages and importing the text gives each message's links and content,
      exactly when there are messages and all of these texts are clean. */
  lemma ChatRoundTripExactly(h: Heading, locale: Locale, messages: seq<ChatMessage>, filename: string, fallback: string)
    requires GoodHeading(h)
    ensures var r := Imported(ChatExported(h, locale, messages), filename, fallback);
      r.Some? && r.value.messages == RenderedAll(messages) <==> messages != [] && AllClean(RenderedAll(messages))
  {
    hide GoodHeading, AllClean, Exported, ChatExported, Imported, Rendered;
    ExportIsRendered(h, locale, messages);
    RoundTripExactly(h, locale, RenderedAll(messages), filename, fallback);
  }
}
