/** Exporting a conversation as Markdown and importing it again
    (frontend/src/pages/chat-page/conversation-transfer-utils.ts). */
module MarkdownTransfer {
  import opened Text
  import opened MarkdownLines

  datatype Message = Message(role: Role, content: string)

  // ----------------------------------------------------------------- export

  datatype Locale = EnUS | ZhCN | JaJP

  function RoleLabel(locale: Locale, role: Role): string {
    match (locale, role)
    case (EnUS, User) => "User"
    case (EnUS, Assistant) => "Assistant"
    case (ZhCN, User) => "用户"
    case (ZhCN, Assistant) => "助手"
    case (JaJP, User) => "ユーザー"
    case (JaJP, Assistant) => "アシスタント"
  }

  function ModelLabel(locale: Locale): string {
    match locale
    case EnUS => "Model"
    case ZhCN => "模型"
    case JaJP => "モデル"
  }

  function UpdatedLabel(locale: Locale): string {
    match locale
    case EnUS => "Updated"
    case ZhCN => "更新时间"
    case JaJP => "更新日時"
  }

  /** Title, model name and formatted time of the conversation. */
  datatype Heading = Heading(title: string, model: string, updated: string)

  function HeaderItems(h: Heading, locale: Locale): seq<string> {
    ["# " + h.title, "", ModelLabel(locale) + ": " + h.model, UpdatedLabel(locale) + ": " + h.updated, ""]
  }

  function MessageItems(m: Message, locale: Locale): seq<string> {
    ["## " + RoleLabel(locale, m.role), ""] + (if m.content == "" then [] else [m.content, ""])
  }

  function AllItems(messages: seq<Message>, locale: Locale): seq<string> {
    if messages == [] then []
    else AllItems(messages[..|messages| - 1], locale) + MessageItems(messages[|messages| - 1], locale)
  }

  /** The text of an export of messages that have no attachments. */
  function Exported(h: Heading, locale: Locale, messages: seq<Message>): string {
    Join(HeaderItems(h, locale) + AllItems(messages, locale))
  }

  // ------------------------------------------------------------------ titles

  function StripControl(value: string): string {
    if value == "" then ""
    else
      var rest := StripControl(value[1..]);
      if value[0] as int <= 0x1F || value[0] as int == 0x7F then rest else [value[0]] + rest
  }

  /** `.replace(/[<>:"/\\|?*]/g, ' ').replace(/\s+/g, ' ')` */
  function CollapseSpace(value: string): string {
    if value == "" then ""
    else
      var rest := CollapseSpace(value[1..]);
      if IsSpace(value[0]) || value[0] in "<>:\"/\\|?*" then
        if " " <= rest then rest else " " + rest
      else [value[0]] + rest
  }

  function LowerAscii(c: char): char {
    if 'A' <= c <= 'Z' then c - 'A' + 'a' else c
  }

  predicate EndsWithFold(value: string, suffix: string) {
    |suffix| <= |value| &&
    forall i :: 0 <= i < |suffix| ==> LowerAscii(value[|value| - |suffix| + i]) == suffix[i]
  }

  /** `.replace(/\s+(\.md)$/i, '$1')` */
  function JoinExtension(value: string): string {
    if EndsWithFold(value, ".md") then TrimEnd(value[..|value| - 3]) + value[|value| - 3..] else value
  }

  predicate IsDotOrSpace(c: char) {
    c == '.' || IsSpace(c)
  }

  function StripFront(value: string): (r: string)
    ensures r != "" ==> !IsDotOrSpace(r[0])
    ensures |r| <= |value| && r == value[|value| - |r|..]
  {
    if value != "" && IsDotOrSpace(value[0]) then StripFront(value[1..]) else value
  }

  function StripBack(value: string): (r: string)
    ensures r <= value
    ensures value != "" && !IsDotOrSpace(value[0]) ==> r != ""
  {
    if value != "" && IsDotOrSpace(value[|value| - 1]) then StripBack(value[..|value| - 1]) else value
  }

  /** `cleanConversationFileBaseName` */
  function CleanBaseName(value: string): string {
    StripBack(StripFront(JoinExtension(Trim(CollapseSpace(StripControl(value))))))
  }

  function StripImportExtension(filename: string): string {
    if EndsWithFold(filename, ".md") then filename[..|filename| - 3]
    else if EndsWithFold(filename, ".markdown") then filename[..|filename| - 9]
    else if EndsWithFold(filename, ".txt") then filename[..|filename| - 4]
    else filename
  }

  function ResolvedTitle(title: string, filename: string, fallback: string): string {
    var first := CleanBaseName(title);
    var second := CleanBaseName(StripImportExtension(filename));
    var third := CleanBaseName(fallback);
    if first != "" then first else if second != "" then second else if third != "" then third else "conversation"
  }

  // ----------------------------------------------------------------- import

  /** The import loop's variables. */
  datatype ParseState = ParseState(
    messages: seq<Message>,
    title: string,
    activeRole: Option<Role>,
    activeLines: seq<string>,
    model: string)

  const START := ParseState([], "", None, [], "")

  function Flushed(messages: seq<Message>, role: Option<Role>, lines: seq<string>): seq<Message> {
    if role == None then messages
    else
      var content := Join(TrimBlank(Lines(Join(lines))));
      if content == "" then messages else messages + [Message(role.value, content)]
  }

  /** The model name that lines before the first section leave. */
  function ModelAfter(model: string, lines: seq<string>): string {
    if lines == [] then model
    else
      var text := ModelText(lines[|lines| - 1]);
      if text.Some? then text.value else ModelAfter(model, lines[..|lines| - 1])
  }

  function ParseLine(st: ParseState, line: string): ParseState {
    var title := if st.title == "" then HeadingText(line, "#") else None;
    var role := RoleHeading(line);
    if title.Some? then st.(title := title.value)
    else if role.Some? then
      st.(messages := Flushed(st.messages, st.activeRole, st.activeLines), activeRole := role, activeLines := [])
    else if st.activeRole == None then st.(model := ModelAfter(st.model, [line]))
    else st.(activeLines := st.activeLines + [line])
  }

  function ParseLines(st: ParseState, lines: seq<string>): ParseState
    decreases |lines|
  {
    if lines == [] then st else ParseLines(ParseLine(st, lines[0]), lines[1..])
  }

  /** All messages, the open one included. */
  function Finished(st: ParseState): seq<Message> {
    Flushed(st.messages, st.activeRole, st.activeLines)
  }

  /** A leading byte order mark is dropped. */
  function WithoutMark(content: string): string {
    if content != "" && content[0] as int == 0xFEFF then content[1..] else content
  }

  function ParsedText(content: string): ParseState {
    ParseLines(START, Lines(NormalizeLineEnds(WithoutMark(content))))
  }

  /** `model` is the settings' model, if the import has any settings. */
  datatype Import = Import(title: string, messages: seq<Message>, model: Option<string>)

  function ImportedModel(model: string): Option<string> {
    if Trim(model) != "" then Some(Trim(model)) else None
  }

  /** `parseConversationMarkdownImport`; `None` is its error. */
  function Imported(content: string, filename: string, fallback: string): Option<Import> {
    var st := ParsedText(content);
    if Finished(st) == [] then None
    else Some(Import(ResolvedTitle(st.title, filename, fallback), Finished(st), ImportedModel(st.model)))
  }

  lemma OneModelLine(model: string, line: string)
    ensures ModelAfter(model, [line]) == if ModelText(line).Some? then ModelText(line).value else model
  {
    hide ModelText;
    assert [line][..0] == [];
  }

  /** A byte order mark at the start makes no difference. */
  lemma MarkIsIgnored(content: string, filename: string, fallback: string, mark: char)
    requires mark as int == 0xFEFF && (content != "" ==> content[0] != mark)
    ensures Imported([mark] + content, filename, fallback) == Imported(content, filename, fallback)
  {
    assert ([mark] + content)[1..] == content;
    assert WithoutMark([mark] + content) == content && WithoutMark(content) == content;
  }

  method FlushImportedMessage(messages: seq<Message>, role: Option<Role>, lines: seq<string>)
      returns (r: seq<Message>)
    ensures r == Flushed(messages, role, lines)
  {
    if role == None {
      return messages;
    }
    var content := TrimSectionBlankLines(Join(lines));
    if content == "" {
      return messages;
    }
    return messages + [Message(role.value, content)];
  }

  method ParseConversationMarkdownImport(content: string, filename: string, fallback: string)
      returns (r: Option<Import>)
    ensures r == Imported(content, filename, fallback)
  {
    hide Lines, Join, NormalizeLineEnds, TrimBlank, HeadingText, RoleHeading, ModelText, ResolvedTitle, Flushed, Trim;
    var lines := Lines(NormalizeLineEnds(WithoutMark(content)));
    var messages: seq<Message> := [];
    var title := "";
    var activeRole: Option<Role> := None;
    var activeLines: seq<string> := [];
    var model := "";
    for i := 0 to |lines|
      invariant ParseLines(START, lines) ==
        ParseLines(ParseState(messages, title, activeRole, activeLines, model), lines[i..])
    {
      var line := lines[i];
      assert lines[i..][0] == line && lines[i..][1..] == lines[i + 1..];
      if title == "" {
        var titleMatch := HeadingText(line, "#");
        if titleMatch.Some? {
          title := titleMatch.value;
          continue;
        }
      }
      var nextRole := RoleHeading(line);
      if nextRole.Some? {
        messages := FlushImportedMessage(messages, activeRole, activeLines);
        activeRole := nextRole;
        activeLines := [];
        continue;
      }
      if activeRole == None {
        var modelMatch := ModelText(line);
        OneModelLine(model, line);
        if modelMatch.Some? {
          model := modelMatch.value;
        }
        continue;
      }
      activeLines := activeLines + [line];
    }
    messages := FlushImportedMessage(messages, activeRole, activeLines);
    if |messages| == 0 {
      return None;
    }
    return Some(Import(ResolvedTitle(title, filename, fallback), messages, ImportedModel(model)));
  }

  // ------------------------------------------------------- usable titles

  /** A character that a name cannot hold, or that may only divide its parts. */
  predicate IsLoose(c: char) {
    c as int <= 0x1F || c as int == 0x7F || IsSpace(c) || c in "<>:\"/\\|?*" || c == '.'
  }

  /** Only usable characters, blanks and dots. */
  predicate IsUsable(s: string) {
    forall i :: 0 <= i < |s| ==> s[i] == ' ' || s[i] == '.' || !IsLoose(s[i])
  }

  predicate IsControl(c: char) {
    c as int <= 0x1F || c as int == 0x7F
  }

  lemma {:induction false} ControlGoes(value: string)
    ensures forall i :: 0 <= i < |StripControl(value)| ==> !IsControl(StripControl(value)[i])
  {
    if value == "" {
    } else {
      ControlGoes(value[1..]);
    }
  }

  lemma {:induction false} CollapseUsable(value: string)
    requires forall i :: 0 <= i < |value| ==> !IsControl(value[i])
    ensures IsUsable(CollapseSpace(value))
  {
    hide IsSpace;
    if value == "" {
    } else {
      CollapseUsable(value[1..]);
    }
  }

  lemma TrimUsable(s: string)
    requires IsUsable(s)
    ensures IsUsable(Trim(s))
  {
    hide IsSpace;
    var rest := s[LeadingSpace(s)..];
    assert IsUsable(rest);
    assert forall i :: 0 <= i < |TrimEnd(rest)| ==> TrimEnd(rest)[i] == rest[i];
  }

  lemma JoinExtensionUsable(s: string)
    requires IsUsable(s)
    ensures IsUsable(JoinExtension(s))
  {
    hide IsSpace;
    if EndsWithFold(s, ".md") {
      hide EndsWithFold;
      var head := s[..|s| - 3];
      assert IsUsable(head) && IsUsable(s[|s| - 3..]);
      assert forall i :: 0 <= i < |TrimEnd(head)| ==> TrimEnd(head)[i] == head[i];
    }
  }

  lemma BlankIsSpace()
    ensures IsSpace(' ') && !IsSpace('.')
  {
  }

  lemma UsableSlice(s: string, i: nat, j: nat)
    requires IsUsable(s) && i <= j <= |s|
    ensures IsUsable(s[i..j])
  {
    hide IsLoose;
  }

  lemma UsableFirst(s: string)
    requires IsUsable(s) && s != "" && !IsDotOrSpace(s[0])
    ensures !IsLoose(s[0])
  {
    BlankIsSpace();
    hide IsSpace;
  }

  lemma StripUsable(s: string)
    requires IsUsable(s)
    ensures var r := StripBack(StripFront(s)); IsUsable(r) && (r != "" ==> !IsLoose(r[0]))
  {
    hide IsUsable, IsDotOrSpace, IsLoose, StripFront, StripBack;
    var front := StripFront(s);
    UsableSlice(s, |s| - |front|, |s|);
    assert s[|s| - |front|..|s|] == front;
    var r := StripBack(front);
    UsableSlice(front, 0, |r|);
    assert front[0..|r|] == r;
    if r != "" {
      UsableFirst(r);
    }
  }

  /** A cleaned name holds usable characters, blanks and dots, and starts with a usable one. */
  lemma CleanIsUsable(value: string)
    ensures var r := CleanBaseName(value); IsUsable(r) && (r != "" ==> !IsLoose(r[0]))
  {
    hide StripFront, StripBack, JoinExtension, Trim, CollapseSpace, StripControl;
    var collapsed := CollapseSpace(StripControl(value));
    ControlGoes(value);
    CollapseUsable(StripControl(value));
    TrimUsable(collapsed);
    JoinExtensionUsable(Trim(collapsed));
    StripUsable(JoinExtension(Trim(collapsed)));
  }

  /** So it is empty, or one line that starts with something. */
  lemma CleanIsOneLine(value: string)
    ensures var r := CleanBaseName(value); NoTerminator(r) && (r != "" ==> !Blank(r))
  {
    CleanIsUsable(value);
    hide CleanBaseName;
    assert forall c :: IsTerminator(c) ==> IsLoose(c) && c != ' ' && c != '.';
  }

  lemma ResolvedTitleUsable(title: string, filename: string, fallback: string)
    ensures var r := ResolvedTitle(title, filename, fallback); !Blank(r) && NoTerminator(r)
  {
    hide CleanBaseName, StripImportExtension;
    CleanIsOneLine(title);
    CleanIsOneLine(StripImportExtension(filename));
    CleanIsOneLine(fallback);
    assert !IsSpace("conversation"[0]);
  }

  /** Every run of blanks is one blank. */
  ghost predicate Collapsed(s: string) {
    && IsUsable(s)
    && forall i :: 0 < i < |s| ==> !(s[i - 1] == ' ' && s[i] == ' ')
  }

  /** A name that needs no cleaning: usable characters and single blanks, solid at both ends, with
      no blank in front of an extension ".md". */
  ghost predicate PlainName(s: string) {
    && s != "" && !IsLoose(s[0]) && !IsLoose(s[|s| - 1])
    && Collapsed(s)
    && (EndsWithFold(s, ".md") ==> |s| > 3 && s[|s| - 4] != ' ')
  }

  lemma {:induction false} StripsNothing(s: string)
    requires IsUsable(s)
    ensures StripControl(s) == s
  {
    hide IsSpace;
    if s == "" {
    } else {
      StripsNothing(s[1..]);
    }
  }

  lemma CollapsedRest(s: string)
    requires Collapsed(s) && s != ""
    ensures Collapsed(s[1..]) && !(s[0] == ' ' && " " <= s[1..])
    ensures CollapseSpace(s[1..]) == s[1..] ==> CollapseSpace(s) == s
  {
    hide IsSpace;
    var t := s[1..];
    assert forall i :: 0 < i < |t| ==> t[i - 1] == s[i] && t[i] == s[i + 1];
    assert s == [s[0]] + t;
    assert " " <= t ==> t[0] == ' ' && t[0] == s[1];
    BlankIsSpace();
    assert s[0] == ' ' || s[0] == '.' || !IsLoose(s[0]);
    if s[0] == ' ' {
      assert s == " " + t;
    }
  }

  lemma {:induction false} CollapsesNothing(s: string)
    requires Collapsed(s)
    ensures CollapseSpace(s) == s
  {
    hide Collapsed, IsSpace;
    if s == "" {
    } else {
      CollapsedRest(s);
      hide CollapseSpace;
      CollapsesNothing(s[1..]);
    }
  }

  lemma ExtensionStays(s: string)
    requires EndsWithFold(s, ".md") ==> |s| > 3 && s[|s| - 4] != ' '
    requires IsUsable(s)
    ensures JoinExtension(s) == s
  {
    if EndsWithFold(s, ".md") {
      hide EndsWithFold;
      var head := s[..|s| - 3];
      assert head[|head| - 1] == s[|s| - 4];
      BlankIsSpace();
      assert !IsSpace(head[|head| - 1]);
      hide IsSpace;
      TrimEndKeeps(head, |head| - 1);
      assert TrimEnd(head) == head;
    }
  }

  /** A plain name is left as it is. */
  lemma PlainNameKept(s: string)
    requires PlainName(s)
    ensures CleanBaseName(s) == s
  {
    StripsNothing(s);
    CollapsesNothing(s);
    TrimSolid(s);
    ExtensionStays(s);
    hide StripControl, CollapseSpace, Trim, JoinExtension, EndsWithFold;
    assert !IsDotOrSpace(s[0]) && !IsDotOrSpace(s[|s| - 1]);
    hide IsLoose, IsDotOrSpace;
  }

  /** The usable characters of a name, in order. */
  function Solids(s: string): string {
    if s == "" then "" else (if IsLoose(s[0]) then "" else [s[0]]) + Solids(s[1..])
  }

  lemma {:induction false} SolidsOfTwo(a: string, b: string)
    ensures Solids(a + b) == Solids(a) + Solids(b)
  {
    hide IsLoose;
    if a == "" {
      assert a + b == b;
    } else {
      SolidsOfTwo(a[1..], b);
      assert (a + b)[1..] == a[1..] + b;
      var first := if IsLoose(a[0]) then "" else [a[0]];
      hide Solids;
      Regroup(first, Solids(a[1..]), Solids(b));
    }
  }

  lemma {:induction false} NoSolids(s: string)
    requires forall i :: 0 <= i < |s| ==> IsLoose(s[i])
    ensures Solids(s) == ""
  {
    hide IsLoose;
    if s == "" {
    } else {
      NoSolids(s[1..]);
    }
  }

  lemma {:induction false} ControlKeepsSolids(s: string)
    ensures Solids(StripControl(s)) == Solids(s)
  {
    if s == "" {
    } else {
      ControlKeepsSolids(s[1..]);
      hide IsSpace;
      var rest := StripControl(s[1..]);
      assert ([s[0]] + rest)[1..] == rest;
    }
  }

  lemma BlankIsLoose()
    ensures IsLoose(' ')
  {
  }

  lemma {:induction false} CollapseKeepsSolids(s: string)
    ensures Solids(CollapseSpace(s)) == Solids(s)
  {
    if s == "" {
    } else {
      CollapseKeepsSolids(s[1..]);
      hide IsSpace;
      var rest := CollapseSpace(s[1..]);
      assert ([s[0]] + rest)[1..] == rest && (" " + rest)[1..] == rest;
      assert IsLoose(' ') by { BlankIsLoose(); }
    }
  }

  /** Loose ends may go. */
  lemma LooseEnds(before: string, s: string, after: string)
    requires forall i :: 0 <= i < |before| ==> IsLoose(before[i])
    requires forall i :: 0 <= i < |after| ==> IsLoose(after[i])
    ensures Solids(before + s + after) == Solids(s)
  {
    hide IsLoose;
    NoSolids(before);
    NoSolids(after);
    SolidsOfTwo(before + s, after);
    SolidsOfTwo(before, s);
    hide Solids;
    assert "" + Solids(s) + "" == Solids(s);
  }

  lemma TrimKeepsSolids(s: string)
    ensures Solids(Trim(s)) == Solids(s)
  {
    hide IsSpace;
    var left := s[LeadingSpace(s)..];
    var t := TrimEnd(left);
    assert s == s[..LeadingSpace(s)] + t + left[|t|..];
    LooseEnds(s[..LeadingSpace(s)], t, left[|t|..]);
  }

  lemma JoinKeepsSolids(s: string)
    ensures Solids(JoinExtension(s)) == Solids(s)
  {
    if EndsWithFold(s, ".md") {
      hide IsSpace, EndsWithFold;
      var head, ext := s[..|s| - 3], s[|s| - 3..];
      var t := TrimEnd(head);
      assert s == head + ext && head == "" + t + head[|t|..];
      LooseEnds("", t, head[|t|..]);
      SolidsOfTwo(t, ext);
      SolidsOfTwo(head, ext);
    }
  }

  lemma {:induction false} StripBackEnds(s: string)
    ensures forall i :: |StripBack(s)| <= i < |s| ==> IsDotOrSpace(s[i])
  {
    hide IsDotOrSpace;
    if s != "" && IsDotOrSpace(s[|s| - 1]) {
      StripBackEnds(s[..|s| - 1]);
    }
  }

  lemma {:induction false} StripFrontEnds(s: string)
    ensures forall i :: 0 <= i < |s| - |StripFront(s)| ==> IsDotOrSpace(s[i])
  {
    hide IsDotOrSpace;
    if s != "" && IsDotOrSpace(s[0]) {
      StripFrontEnds(s[1..]);
    }
  }

  lemma StripKeepsSolids(s: string)
    ensures Solids(StripBack(StripFront(s))) == Solids(s)
  {
    StripFrontEnds(s);
    var front := StripFront(s);
    StripBackEnds(front);
    var r := StripBack(front);
    hide IsSpace, StripFront, StripBack;
    assert s == s[..|s| - |front|] + r + front[|r|..];
    LooseEnds(s[..|s| - |front|], r, front[|r|..]);
  }

  /** Cleaning a name keeps its usable characters, all of them and in order. */
  lemma CleanKeepsSolids(value: string)
    ensures Solids(CleanBaseName(value)) == Solids(value)
  {
    hide StripFront, StripBack, JoinExtension, Trim, CollapseSpace, StripControl, Solids;
    var collapsed := CollapseSpace(StripControl(value));
    ControlKeepsSolids(value);
    CollapseKeepsSolids(StripControl(value));
    TrimKeepsSolids(collapsed);
    JoinKeepsSolids(Trim(collapsed));
    StripKeepsSolids(JoinExtension(Trim(collapsed)));
  }

  lemma PlainHasSolid(s: string)
    requires s != "" && !IsLoose(s[0])
    ensures Solids(s) != ""
  {
  }

  lemma NothingIsSolid()
    ensures Solids("") == "" && !PlainName("")
  {
  }

  lemma CleanIsEmpty(value: string)
    ensures CleanBaseName(value) == "" <==> Solids(value) == ""
  {
    CleanKeepsSolids(value);
    CleanIsUsable(value);
    NothingIsSolid();
    if CleanBaseName(value) != "" {
      hide CleanBaseName, IsLoose;
      PlainHasSolid(CleanBaseName(value));
    }
  }

  /** The title is that of the text if it has a usable character, else that of the file name
      without its extension, else the fallback; it keeps all usable characters, and a plain one
      is not changed. */
  lemma TitleIsChosen(title: string, filename: string, fallback: string)
    ensures var r, base := ResolvedTitle(title, filename, fallback), StripImportExtension(filename);
      var chosen := if Solids(title) != "" then title else if Solids(base) != "" then base else fallback;
      if Solids(chosen) == "" then r == "conversation"
      else Solids(r) == Solids(chosen) && (PlainName(chosen) ==> r == chosen)
  {
    hide CleanBaseName, StripImportExtension, PlainName, Solids;
    var base := StripImportExtension(filename);
    forall name | name == title || name == base || name == fallback
      ensures CleanBaseName(name) == "" <==> Solids(name) == ""
      ensures Solids(CleanBaseName(name)) == Solids(name) && (PlainName(name) ==> CleanBaseName(name) == name)
    {
      CleanIsEmpty(name);
      CleanKeepsSolids(name);
      if PlainName(name) {
        PlainNameKept(name);
      }
    }
  }

  predicate SameFold(extension: string, suffix: string) {
    |extension| == |suffix| && forall i :: 0 <= i < |suffix| ==> LowerAscii(extension[i]) == suffix[i]
  }

  lemma FoldEnds(base: string, extension: string, suffix: string)
    requires SameFold(extension, suffix)
    ensures EndsWithFold(base + extension, suffix)
    ensures (base + extension)[..|base|] == base
  {
  }

  lemma LastFolds(name: string, suffix: string)
    requires EndsWithFold(name, suffix) && suffix != ""
    ensures name != "" && LowerAscii(name[|name| - 1]) == suffix[|suffix| - 1]
  {
    assert LowerAscii(name[|name| - |suffix| + (|suffix| - 1)]) == suffix[|suffix| - 1];
  }

  lemma FoldsTo(base: string, extension: string, suffix: string, other: string)
    requires SameFold(extension, suffix) && suffix != "" && other != ""
    requires suffix[|suffix| - 1] != other[|other| - 1]
    ensures !EndsWithFold(base + extension, other)
  {
    var name := base + extension;
    assert LowerAscii(extension[|suffix| - 1]) == suffix[|suffix| - 1];
    assert name[|name| - 1] == extension[|suffix| - 1];
    if EndsWithFold(name, other) {
      LastFolds(name, other);
    }
  }

  lemma SameLength(extension: string, suffix: string)
    requires SameFold(extension, suffix)
    ensures |extension| == |suffix|
  {
  }

  /** Exactly the extensions of an importable file go, in upper or lower case. */
  lemma ExtensionGoes(base: string, extension: string)
    ensures SameFold(extension, ".md") || SameFold(extension, ".markdown") || SameFold(extension, ".txt") ==>
      StripImportExtension(base + extension) == base
    ensures !EndsWithFold(base, ".md") && !EndsWithFold(base, ".markdown") && !EndsWithFold(base, ".txt") ==>
      StripImportExtension(base) == base
  {
    hide EndsWithFold, SameFold;
    forall suffix | suffix in [".md", ".markdown", ".txt"] && SameFold(extension, suffix)
      ensures EndsWithFold(base + extension, suffix) && (base + extension)[..|base|] == base
      ensures |extension| == |suffix|
    {
      FoldEnds(base, extension, suffix);
      SameLength(extension, suffix);
    }
    assert ".md" in [".md", ".markdown", ".txt"];
    assert ".markdown" in [".md", ".markdown", ".txt"];
    assert ".txt" in [".md", ".markdown", ".txt"];
    if SameFold(extension, ".markdown") {
      FoldsTo(base, extension, ".markdown", ".md");
    } else if SameFold(extension, ".txt") {
      FoldsTo(base, extension, ".txt", ".md");
      FoldsTo(base, extension, ".txt", ".markdown");
    }
  }

  // ------------------------------------------------------ lines of an export

  function Flat(items: seq<string>): seq<string> {
    if items == [] then [] else Flat(items[..|items| - 1]) + Lines(items[|items| - 1])
  }

  lemma {:induction false} FlatSum(a: seq<string>, b: seq<string>)
    ensures Flat(a + b) == Flat(a) + Flat(b)
    decreases |b|
  {
    hide Lines;
    if b == [] {
      assert a + b == a;
    } else {
      var n := |b| - 1;
      FlatSum(a, b[..n]);
      assert (a + b)[..|a| + n] == a + b[..n];
    }
  }

  lemma FlatOne(item: string)
    ensures Flat([item]) == Lines(item)
  {
    hide Lines;
    assert [item][..0] == [];
    assert [] + Lines(item) == Lines(item);
  }

  lemma {:induction false} LinesOfItems(items: seq<string>)
    requires items != []
    ensures Lines(Join(items)) == Flat(items)
    decreases |items|
  {
    hide Lines;
    FlatOne(items[0]);
    if |items| == 1 {
      assert items == [items[0]];
    } else {
      LinesOfItems(items[1..]);
      LinesOfTwo(items[0], Join(items[1..]));
      FlatSum([items[0]], items[1..]);
      assert items == [items[0]] + items[1..];
    }
  }

  lemma {:induction false} ParseTwo(st: ParseState, a: seq<string>, b: seq<string>)
    ensures ParseLines(st, a + b) == ParseLines(ParseLines(st, a), b)
    decreases |a|
  {
    hide ParseLine;
    if a == [] {
      assert a + b == b;
    } else {
      ParseTwo(ParseLine(st, a[0]), a[1..], b);
      assert (a + b)[1..] == a[1..] + b;
    }
  }

  lemma NotHeading(line: string)
    requires line == "" || line[0] != '#'
    ensures RoleHeading(line) == None
  {
  }

  lemma LabelsStartPlain(locale: Locale)
    ensures ModelLabel(locale) != "" && ModelLabel(locale)[0] != '#'
    ensures UpdatedLabel(locale) != "" && UpdatedLabel(locale)[0] != '#'
  {
  }

  lemma {:induction false} PlainLines(st: ParseState, lines: seq<string>)
    requires st.title != "" && st.activeRole.Some?
    requires forall i :: 0 <= i < |lines| ==> RoleHeading(lines[i]) == None
    ensures ParseLines(st, lines) == st.(activeLines := st.activeLines + lines)
    decreases |lines|
  {
    hide RoleHeading, HeadingText, Flushed;
    if lines == [] {
      assert st.activeLines + [] == st.activeLines;
    } else {
      PlainLines(ParseLine(st, lines[0]), lines[1..]);
      assert st.activeLines + [lines[0]] + lines[1..] == st.activeLines + lines;
    }
  }

  // ----------------------------------------------------------- round trip

  /** Content that an import can produce. */
  ghost predicate Clean(content: string) {
    var lines := Lines(content);
    && content != "" && NoReturn(content)
    && !Blank(lines[0]) && !Blank(lines[|lines| - 1])
    && forall i :: 0 <= i < |lines| ==> RoleHeading(lines[i]) == None
  }

  ghost predicate AllClean(messages: seq<Message>) {
    forall i :: 0 <= i < |messages| ==> Clean(messages[i].content)
  }

  /** The lines of a section behind its heading. */
  function SectionBody(content: string): seq<string> {
    [""] + Lines(content) + [""]
  }

  lemma FlushedSection(messages: seq<Message>, role: Role, content: string)
    requires Clean(content)
    ensures Flushed(messages, Some(role), SectionBody(content)) == messages + [Message(role, content)]
  {
    hide Blank, RoleHeading;
    JoinOfLines(content);
    var lines := Lines(content);
    hide Lines, Join;
    LinesOfJoin([""] + lines + [""]);
    TrimBlankAround(lines);
  }

  lemma LabelIsSolid(locale: Locale, role: Role)
    ensures var name := RoleLabel(locale, role);
      name != "" && !IsSpace(name[0]) && !IsSpace(name[|name| - 1]) && NoTerminator(name)
  {
  }

  lemma LabelResolves(locale: Locale, role: Role)
    requires var name := RoleLabel(locale, role); Trim(name) == name
    ensures ResolveRole(RoleLabel(locale, role)) == Some(role)
  {
    hide Trim;
  }

  lemma LabelIsHeading(locale: Locale, role: Role)
    ensures RoleHeading("## " + RoleLabel(locale, role)) == Some(role)
  {
    hide RoleLabel, IsSpace, IsTerminator, HeadingText, Trim, ResolveRole;
    var name := RoleLabel(locale, role);
    LabelIsSolid(locale, role);
    TrimSolid(name);
    LabelResolves(locale, role);
    assert "##" + " " + name == "## " + name;
    HeadingOf("##", name);
  }

  /** The headings of sections in the three languages. */
  lemma HeadingsAreRead()
    ensures RoleHeading("## User") == Some(User) && RoleHeading("## Assistant") == Some(Assistant)
    ensures RoleHeading("## 用户") == Some(User) && RoleHeading("## 助手") == Some(Assistant)
    ensures RoleHeading("## ユーザー") == Some(User) && RoleHeading("## アシスタント") == Some(Assistant)
  {
    hide RoleHeading;
    LabelIsHeading(EnUS, User);
    LabelIsHeading(EnUS, Assistant);
    LabelIsHeading(ZhCN, User);
    LabelIsHeading(ZhCN, Assistant);
    LabelIsHeading(JaJP, User);
    LabelIsHeading(JaJP, Assistant);
    assert "## " + "User" == "## User" && "## " + "Assistant" == "## Assistant";
    assert "## " + "用户" == "## 用户" && "## " + "助手" == "## 助手";
    assert "## " + "ユーザー" == "## ユーザー" && "## " + "アシスタント" == "## アシスタント";
  }

  lemma SectionBodyIsPlain(content: string)
    requires Clean(content)
    ensures content != ""
    ensures forall i :: 0 <= i < |SectionBody(content)| ==> RoleHeading(SectionBody(content)[i]) == None
  {
    NotHeading("");
    hide Lines, RoleHeading, Blank, NoReturn;
  }

  lemma LabelOneLine(locale: Locale, role: Role)
    ensures NoLineFeed("## " + RoleLabel(locale, role))
  {
  }

  lemma {:induction false} FlatPlain(items: seq<string>)
    requires forall i :: 0 <= i < |items| ==> NoLineFeed(items[i])
    ensures Flat(items) == items
  {
    if items == [] {
    } else {
      var n := |items| - 1;
      FlatPlain(items[..n]);
      LinesFirst(items[n], "");
      hide Lines, NoLineFeed;
      assert items == items[..n] + [items[n]];
    }
  }

  lemma SectionLines(m: Message, locale: Locale)
    requires m.content != ""
    ensures Flat(MessageItems(m, locale)) == ["## " + RoleLabel(locale, m.role)] + SectionBody(m.content)
  {
    var head, c := "## " + RoleLabel(locale, m.role), m.content;
    LabelOneLine(locale, m.role);
    hide Flat, Lines, RoleLabel;
    FlatOne(c);
    FlatPlain([head, ""]);
    FlatPlain([""]);
    FlatSum([c], [""]);
    FlatSum([head, ""], [c] + [""]);
    assert MessageItems(m, locale) == [head, ""] + ([c] + [""]);
  }

  /** One exported message after what was parsed before it. */
  lemma SectionParses(st: ParseState, m: Message, locale: Locale)
    requires st.title != "" && Clean(m.content)
    ensures var t := ParseLines(st, Flat(MessageItems(m, locale)));
      t.title == st.title && t.model == st.model && Finished(t) == Finished(st) + [m]
  {
    hide Lines, Flat, MessageItems, RoleLabel, Flushed, RoleHeading, HeadingText;
    var head, body := "## " + RoleLabel(locale, m.role), SectionBody(m.content);
    SectionLines(m, locale);
    LabelIsHeading(locale, m.role);
    SectionBodyIsPlain(m.content);
    hide Clean, SectionBody;
    assert ([head] + body)[1..] == body;
    var begun := ParseState(Finished(st), st.title, Some(m.role), [], st.model);
    assert ParseLine(st, head) == begun;
    PlainLines(begun, body);
    assert [] + body == body;
    FlushedSection(Finished(st), m.role, m.content);
  }

  /** A heading that leaves the import in no doubt: a non-blank title on one line. */
  ghost predicate GoodHeading(h: Heading) {
    !Blank(h.title) && NoTerminator(h.title) && OneLine(h.model) && OneLine(h.updated)
  }

  lemma HeaderLines(h: Heading, locale: Locale)
    requires GoodHeading(h)
    ensures Flat(HeaderItems(h, locale)) == HeaderItems(h, locale)
  {
    var items := HeaderItems(h, locale);
    assert forall i :: 0 <= i < |items| ==> NoLineFeed(items[i]);
    hide HeaderItems;
    FlatPlain(items);
  }

  /** The first line of an export holds the title; the four that follow are no headings. */
  lemma HeaderItemsAre(h: Heading, locale: Locale)
    requires GoodHeading(h)
    ensures var items := HeaderItems(h, locale);
      && |items| == 5 && HeadingText(items[0], "#") == Some(Trim(h.title)) && Trim(h.title) != ""
      && forall i :: 1 <= i < 5 ==> RoleHeading(items[i]) == None
  {
    var items := HeaderItems(h, locale);
    hide RoleHeading, HeadingText, Trim, Blank;
    assert "#" + " " + h.title == items[0];
    HeadingOf("#", h.title);
    LabelsStartPlain(locale);
    NotHeading(items[1]);
    NotHeading(items[2]);
    NotHeading(items[3]);
    NotHeading(items[4]);
  }

  /** What the header leaves in the import's variables. */
  function HeaderState(h: Heading, locale: Locale): ParseState {
    ParseState([], Trim(h.title), None, [], ModelAfter("", HeaderItems(h, locale)[1..]))
  }

  lemma {:induction false} ModelTwo(model: string, a: seq<string>, b: seq<string>)
    ensures ModelAfter(model, a + b) == ModelAfter(ModelAfter(model, a), b)
    decreases |b|
  {
    hide ModelText;
    if b == [] {
      assert a + b == a;
    } else {
      ModelTwo(model, a, b[..|b| - 1]);
      assert (a + b)[..|a + b| - 1] == a + b[..|b| - 1];
    }
  }

  lemma {:induction false} QuietLines(st: ParseState, lines: seq<string>)
    requires st.title != "" && st.activeRole == None
    requires forall i :: 0 <= i < |lines| ==> RoleHeading(lines[i]) == None
    ensures ParseLines(st, lines) == st.(model := ModelAfter(st.model, lines))
    decreases |lines|
  {
    hide RoleHeading, HeadingText, ModelText;
    if lines == [] {
    } else {
      QuietLines(ParseLine(st, lines[0]), lines[1..]);
      ModelTwo(st.model, [lines[0]], lines[1..]);
      assert lines == [lines[0]] + lines[1..];
    }
  }

  lemma HeaderParses(h: Heading, locale: Locale)
    requires GoodHeading(h)
    ensures ParseLines(START, HeaderItems(h, locale)) == HeaderState(h, locale)
    ensures Trim(h.title) != ""
  {
    HeaderItemsAre(h, locale);
    hide RoleHeading, HeadingText, ModelText, Trim, HeaderItems, GoodHeading, Flushed;
    var items := HeaderItems(h, locale);
    var st := ParseState([], Trim(h.title), None, [], "");
    assert ParseLine(START, items[0]) == st;
    hide ParseLine;
    assert forall i :: 0 <= i < 4 ==> items[1..][i] == items[i + 1];
    QuietLines(st, items[1..]);
  }

  lemma NoModelLines(locale: Locale, updated: string)
    ensures ModelText("") == None && ModelText(UpdatedLabel(locale) + ": " + updated) == None
  {
    hide OptionallySpaced, LeadingSpace;
    assert (UpdatedLabel(locale) + ": " + updated)[0] == UpdatedLabel(locale)[0];
  }

  lemma ModelLabelIs(locale: Locale, line: string)
    requires ModelLabel(locale) + ":" <= line
    ensures ModelText(line) == var u := line[|ModelLabel(locale)| + 1..]; OptionallySpaced(u, LeadingSpace(u))
  {
    hide OptionallySpaced, LeadingSpace;
    assert line[0] == ModelLabel(locale)[0];
  }

  lemma BehindColon(name: string, value: string)
    ensures name + ":" <= name + ": " + value
    ensures (name + ": " + value)[|name| + 1..] == " " + value
  {
    assert name + ": " + value == name + ":" + (" " + value);
  }

  lemma ModelLineReads(locale: Locale, model: string)
    requires NoTerminator(model)
    ensures var text := ModelText(ModelLabel(locale) + ": " + model); text.Some? && Trim(text.value) == Trim(model)
  {
    hide OptionallySpaced, LeadingSpace, Trim, NoTerminator, ModelLabel, ModelText;
    BehindColon(ModelLabel(locale), model);
    ModelLabelIs(locale, ModelLabel(locale) + ": " + model);
    OptionallySpacedOf(model);
  }

  lemma HeaderTail(h: Heading, locale: Locale)
    ensures HeaderItems(h, locale)[1..] ==
      [""] + [ModelLabel(locale) + ": " + h.model] + [UpdatedLabel(locale) + ": " + h.updated] + [""]
  {
    hide ModelLabel, UpdatedLabel;
  }

  lemma ModelMore(model: string, lines: seq<string>, line: string)
    ensures ModelAfter(model, lines + [line]) ==
      if ModelText(line).Some? then ModelText(line).value else ModelAfter(model, lines)
  {
    ModelTwo(model, lines, [line]);
    hide ModelText;
    OneModelLine(ModelAfter(model, lines), line);
  }

  /** The model name of the header is read back, trimmed. */
  lemma HeaderModel(h: Heading, locale: Locale)
    requires NoTerminator(h.model)
    ensures Trim(HeaderState(h, locale).model) == Trim(h.model)
  {
    hide ModelText, Trim, ModelLabel, UpdatedLabel, NoTerminator, HeaderItems, ModelAfter;
    NoModelLines(locale, h.updated);
    ModelLineReads(locale, h.model);
    HeaderTail(h, locale);
    var line, updated := ModelLabel(locale) + ": " + h.model, UpdatedLabel(locale) + ": " + h.updated;
    ModelMore("", [""], line);
    ModelMore("", [""] + [line], updated);
    ModelMore("", [""] + [line] + [updated], "");
  }

  lemma {:induction false} SectionsParse(st: ParseState, messages: seq<Message>, locale: Locale)
    requires st.title != "" && AllClean(messages)
    ensures var t := ParseLines(st, Flat(AllItems(messages, locale)));
      t.title == st.title && t.model == st.model && Finished(t) == Finished(st) + messages
  {
    hide Clean, MessageItems, Finished, ParseLine;
    if messages == [] {
    } else {
      var n := |messages| - 1;
      SectionsParse(st, messages[..n], locale);
      FlatSum(AllItems(messages[..n], locale), MessageItems(messages[n], locale));
      ParseTwo(st, Flat(AllItems(messages[..n], locale)), Flat(MessageItems(messages[n], locale)));
      SectionParses(ParseLines(st, Flat(AllItems(messages[..n], locale))), messages[n], locale);
      hide Flat, AllItems, ParseLines;
      assert Finished(st) + messages[..n] + [messages[n]] == Finished(st) + messages;
    }
  }

  lemma {:induction false} JoinNoReturn(items: seq<string>)
    requires forall i :: 0 <= i < |items| ==> NoReturn(items[i])
    ensures NoReturn(Join(items))
    decreases |items|
  {
    if |items| <= 1 {
    } else {
      JoinNoReturn(items[1..]);
    }
  }

  lemma {:induction false} ItemsNoReturn(messages: seq<Message>, locale: Locale)
    requires AllClean(messages)
    ensures forall i :: 0 <= i < |AllItems(messages, locale)| ==> NoReturn(AllItems(messages, locale)[i])
  {
    hide Blank, RoleHeading, Lines;
    if messages == [] {
    } else {
      var n := |messages| - 1;
      ItemsNoReturn(messages[..n], locale);
      assert Clean(messages[n].content);
      var last := MessageItems(messages[n], locale);
      assert forall i :: 0 <= i < |last| ==> NoReturn(last[i]);
    }
  }

  lemma HeaderNoReturn(h: Heading, locale: Locale)
    requires GoodHeading(h)
    ensures var items := HeaderItems(h, locale);
      |items| == 5 && items[0] != "" && items[0][0] == '#' && forall i :: 0 <= i < 5 ==> NoReturn(items[i])
  {
  }

  lemma ExportIsPlain(h: Heading, locale: Locale, messages: seq<Message>)
    requires GoodHeading(h) && AllClean(messages)
    ensures var text := Exported(h, locale, messages); NormalizeLineEnds(WithoutMark(text)) == text
  {
    hide HeaderItems, AllItems, NormalizeLineEnds, GoodHeading, AllClean;
    var items := HeaderItems(h, locale) + AllItems(messages, locale);
    ItemsNoReturn(messages, locale);
    HeaderNoReturn(h, locale);
    assert forall i :: 0 <= i < |items| ==> NoReturn(items[i]);
    JoinNoReturn(items);
    assert Join(items)[0] == '#';
    NormalizePlain(Join(items));
  }

  lemma HeaderNotEmpty(h: Heading, locale: Locale)
    ensures HeaderItems(h, locale) != []
  {
  }

  /** Clean messages come back, and so does what the header says of the model. */
  lemma ExportImports(h: Heading, locale: Locale, messages: seq<Message>)
    requires GoodHeading(h) && AllClean(messages)
    ensures Finished(ParsedText(Exported(h, locale, messages))) == messages
    ensures ParsedText(Exported(h, locale, messages)).model == HeaderState(h, locale).model
    ensures ParsedText(Exported(h, locale, messages)).title == Trim(h.title)
  {
    hide GoodHeading, AllClean, Flat, HeaderItems, AllItems;
    hide ParseLines, NormalizeLineEnds, WithoutMark, Trim, ModelAfter;
    ExportIsPlain(h, locale, messages);
    var header, items := HeaderItems(h, locale), AllItems(messages, locale);
    assert header != [] by { HeaderNotEmpty(h, locale); }
    LinesOfItems(header + items);
    FlatSum(header, items);
    HeaderLines(h, locale);
    ParseTwo(START, header, Flat(items));
    HeaderParses(h, locale);
    var st := HeaderState(h, locale);
    SectionsParse(st, messages, locale);
    hide Lines, Join;
    assert Finished(st) == [];
    assert [] + messages == messages;
  }

  // -------------------------------------------------- imports are clean

  ghost predicate SectionLine(line: string) {
    NoLineFeed(line) && NoReturn(line) && RoleHeading(line) == None
  }

  ghost predicate CleanState(st: ParseState) {
    && AllClean(st.messages)
    && forall i :: 0 <= i < |st.activeLines| ==> SectionLine(st.activeLines[i])
  }

  lemma JoinedSection(lines: seq<string>)
    requires forall i :: 0 <= i < |lines| ==> SectionLine(lines[i])
    ensures forall line :: line in Lines(Join(lines)) ==> SectionLine(line)
  {
    if lines == [] {
      NotHeading("");
    } else {
      hide RoleHeading;
      LinesOfJoin(lines);
    }
  }

  lemma KeptIsClean(kept: seq<string>)
    requires kept != [] && !Blank(kept[0]) && !Blank(kept[|kept| - 1]) && Join(kept) != ""
    requires forall line :: line in kept ==> SectionLine(line)
    ensures Clean(Join(kept))
  {
    hide RoleHeading, Blank, Lines;
    forall i | 0 <= i < |kept| ensures NoLineFeed(kept[i]) && NoReturn(kept[i]) && RoleHeading(kept[i]) == None {
      assert SectionLine(kept[i]);
    }
    hide SectionLine, NoLineFeed, NoReturn, Join;
    JoinNoReturn(kept);
    LinesOfJoin(kept);
  }

  lemma FlushedIsClean(messages: seq<Message>, role: Option<Role>, lines: seq<string>)
    requires AllClean(messages) && forall i :: 0 <= i < |lines| ==> SectionLine(lines[i])
    ensures AllClean(Flushed(messages, role, lines))
  {
    hide SectionLine, Clean, Blank, Lines;
    var all := Lines(Join(lines));
    JoinedSection(lines);
    var kept := TrimBlank(all);
    TrimBlankEnds(all);
    hide TrimBlank;
    if Join(kept) != "" {
      assert kept != [];
      hide Join;
      KeptIsClean(kept);
    }
  }

  lemma ParseLineKeepsClean(st: ParseState, line: string)
    requires CleanState(st) && NoLineFeed(line) && NoReturn(line)
    ensures CleanState(ParseLine(st, line))
  {
    hide RoleHeading, HeadingText, Flushed, AllClean;
    FlushedIsClean(st.messages, st.activeRole, st.activeLines);
  }

  lemma {:induction false} ParseKeepsClean(st: ParseState, lines: seq<string>)
    requires CleanState(st)
    requires forall i :: 0 <= i < |lines| ==> NoLineFeed(lines[i]) && NoReturn(lines[i])
    ensures CleanState(ParseLines(st, lines))
    decreases |lines|
  {
    hide CleanState, ParseLine;
    if lines == [] {
    } else {
      ParseLineKeepsClean(st, lines[0]);
      ParseKeepsClean(ParseLine(st, lines[0]), lines[1..]);
    }
  }

  lemma {:induction false} NormalizedHasNoReturn(s: string)
    ensures NoReturn(NormalizeLineEnds(s))
    decreases |s|
  {
    if s == "" {
    } else {
      NormalizedHasNoReturn(if s[0] == '\r' && |s| > 1 && s[1] == '\n' then s[2..] else s[1..]);
    }
  }

  lemma {:induction false} LinesNoReturn(s: string)
    requires NoReturn(s)
    ensures forall i :: 0 <= i < |Lines(s)| ==> NoReturn(Lines(s)[i])
  {
    if s == "" {
    } else {
      LinesNoReturn(s[1..]);
    }
  }

  /** Every message that an import yields, from any text, is clean. */
  lemma ImportsAreClean(content: string)
    ensures AllClean(Finished(ParsedText(content)))
  {
    var text := NormalizeLineEnds(WithoutMark(content));
    NormalizedHasNoReturn(WithoutMark(content));
    LinesNoReturn(text);
    JoinOfLines(text);
    hide NormalizeLineEnds, Lines, Join, Flushed, Clean, RoleHeading;
    assert CleanState(START);
    ParseKeepsClean(START, Lines(text));
    var st := ParsedText(content);
    FlushedIsClean(st.messages, st.activeRole, st.activeLines);
  }

  /** Exporting messages under a non-blank one-line title and importing the text gives
      the same messages exactly when there are any and all of them are clean. */
  lemma RoundTripExactly(h: Heading, locale: Locale, messages: seq<Message>, filename: string, fallback: string)
    requires GoodHeading(h)
    ensures var r := Imported(Exported(h, locale, messages), filename, fallback);
      r.Some? && r.value.messages == messages <==> messages != [] && AllClean(messages)
  {
    hide GoodHeading, AllClean, Exported, ParsedText, Finished, ResolvedTitle;
    ImportsAreClean(Exported(h, locale, messages));
    if AllClean(messages) {
      ExportImports(h, locale, messages);
    }
  }

  /** The model name comes back too, trimmed; a blank one leaves no settings. */
  lemma ModelReturns(h: Heading, locale: Locale, messages: seq<Message>, filename: string, fallback: string)
    requires GoodHeading(h) && NoTerminator(h.model) && messages != [] && AllClean(messages)
    ensures var r := Imported(Exported(h, locale, messages), filename, fallback);
      r.Some? && r.value.model == ImportedModel(h.model)
  {
    ExportImports(h, locale, messages);
    HeaderModel(h, locale);
    hide GoodHeading, AllClean, Exported, ParsedText, Finished, ResolvedTitle, HeaderState, Trim;
  }

  lemma PlainTitle(title: string, filename: string, fallback: string)
    requires PlainName(title)
    ensures ResolvedTitle(title, filename, fallback) == title && Trim(title) == title
  {
    PlainHasSolid(title);
    assert Trim(title) == title by { TrimSolid(title); }
    hide PlainName, ResolvedTitle, Solids, Trim;
    TitleIsChosen(title, filename, fallback);
  }

  /** The title comes back cleaned, and so a plain one as it is. */
  lemma TitleReturns(h: Heading, locale: Locale, messages: seq<Message>, filename: string, fallback: string)
    requires GoodHeading(h) && messages != [] && AllClean(messages)
    ensures var r := Imported(Exported(h, locale, messages), filename, fallback);
      r.Some? && (PlainName(h.title) ==> r.value.title == h.title)
  {
    ExportImports(h, locale, messages);
    hide GoodHeading, AllClean, Exported, ParsedText, Finished, ResolvedTitle, Trim, PlainName, ImportedModel;
    if PlainName(h.title) {
      PlainTitle(h.title, filename, fallback);
    }
  }

  /** Whatever text was imported, exporting the result and importing that gives the
      same messages. */
  lemma ImportIsStable(content: string, filename: string, fallback: string,
                       locale: Locale, model: string, updated: string, filename': string, fallback': string)
    requires OneLine(model) && OneLine(updated)
    ensures var first := Imported(content, filename, fallback);
      first.Some? ==>
        (var h := Heading(first.value.title, model, updated);
         var again := Imported(Exported(h, locale, first.value.messages), filename', fallback');
         again.Some? && again.value.messages == first.value.messages)
  {
    var first := Imported(content, filename, fallback);
    ImportsAreClean(content);
    hide AllClean, Exported, ParsedText, Finished;
    ResolvedTitleUsable(ParsedText(content).title, filename, fallback);
    hide ResolvedTitle;
    if first.Some? {
      RoundTripExactly(Heading(first.value.title, model, updated), locale, first.value.messages, filename', fallback');
    }
  }
}
