/** The line patterns of the Markdown import
    (frontend/src/pages/chat-page/conversation-transfer-utils.ts:86-171, 193-205).

    The source matches lines with regular expressions; they are written out here with
    the order in which a backtracking matcher tries their alternatives. */
module MarkdownLines {
  import opened Text

  /** `\s`, which is also what `trim` removes. */
  predicate IsSpace(c: char) {
    var n := c as int;
    || 9 <= n <= 13 || n == 0x20 || n == 0xA0 || n == 0x1680 || 0x2000 <= n <= 0x200A
    || n == 0x2028 || n == 0x2029 || n == 0x202F || n == 0x205F || n == 0x3000 || n == 0xFEFF
  }

  /** What `.` does not match. */
  predicate IsTerminator(c: char) {
    var n := c as int;
    n == 10 || n == 13 || n == 0x2028 || n == 0x2029
  }

  predicate NoTerminator(s: string) {
    forall i :: 0 <= i < |s| ==> !IsTerminator(s[i])
  }

  /** `s.trim() === ''` */
  predicate Blank(s: string) {
    forall i :: 0 <= i < |s| ==> IsSpace(s[i])
  }

  function LeadingSpace(s: string): (n: nat)
    ensures n <= |s| && (n < |s| ==> !IsSpace(s[n]))
    ensures forall i :: 0 <= i < n ==> IsSpace(s[i])
  {
    if s == "" || !IsSpace(s[0]) then 0 else 1 + LeadingSpace(s[1..])
  }

  function TrimEnd(s: string): (r: string)
    ensures r <= s && (r != "" ==> !IsSpace(r[|r| - 1]))
    ensures forall i :: |r| <= i < |s| ==> IsSpace(s[i])
  {
    if s != "" && IsSpace(s[|s| - 1]) then TrimEnd(s[..|s| - 1]) else s
  }

  function Trim(s: string): string {
    TrimEnd(s[LeadingSpace(s)..])
  }

  /** `(.+?)\s*$`: the shortest non-empty group that only white space follows. */
  function LazyGroup(v: string): Option<string> {
    var n := if TrimEnd(v) == "" then 1 else |TrimEnd(v)|;
    if n <= |v| && NoTerminator(v[..n]) then Some(v[..n]) else None
  }

  /** `\s+(.+?)\s*$` with at most `k` characters for the greedy `\s+`. */
  function SpacedGroup(u: string, k: nat): Option<string>
    requires k <= |u|
  {
    if k == 0 then None
    else
      var g := LazyGroup(u[k..]);
      if g.Some? then g else SpacedGroup(u, k - 1)
  }

  /** `line.match(/^#\s+(.+?)\s*$/)`, and the same with `##`. */
  function HeadingText(line: string, hashes: string): Option<string> {
    if hashes <= line then SpacedGroup(line[|hashes|..], LeadingSpace(line[|hashes|..])) else None
  }

  /** `\s*(.+?)\s*$` with at most `k` characters for the greedy `\s*`. */
  function OptionallySpaced(u: string, k: nat): Option<string>
    requires k <= |u|
  {
    var g := LazyGroup(u[k..]);
    if g.Some? then g else if k == 0 then None else OptionallySpaced(u, k - 1)
  }

  /** `line.match(/^(Model|模型|モデル):\s*(.+?)\s*$/)`, the second group. */
  function ModelText(line: string): Option<string> {
    var n := if "Model:" <= line then 6 else if "模型:" <= line then 3 else if "モデル:" <= line then 4 else 0;
    if n == 0 then None else OptionallySpaced(line[n..], LeadingSpace(line[n..]))
  }

  datatype Role = User | Assistant

  function ResolveRole(value: string): Option<Role> {
    var name := Trim(value);
    if name == "User" || name == "用户" || name == "ユーザー" then Some(User)
    else if name == "Assistant" || name == "助手" || name == "アシスタント" then Some(Assistant)
    else None
  }

  /** The role that a line opens a section for. */
  function RoleHeading(line: string): Option<Role> {
    var g := HeadingText(line, "##");
    if g.Some? then ResolveRole(g.value) else None
  }

  lemma TrimEndKeeps(s: string, i: nat)
    requires i < |s| && !IsSpace(s[i])
    ensures i < |TrimEnd(s)|
  {
  }

  /** A text that begins and ends with something else than space is its own trim. */
  lemma TrimSolid(s: string)
    requires s != "" && !IsSpace(s[0]) && !IsSpace(s[|s| - 1])
    ensures LeadingSpace(s) == 0 && TrimEnd(s) == s && Trim(s) == s
  {
    assert s[0..] == s;
  }

  lemma SpacedLeading(t: string)
    ensures LeadingSpace(" " + t) == LeadingSpace(t) + 1
  {
    assert (" " + t)[1..] == t;
  }

  lemma LazyGroupOf(v: string)
    requires v != "" && !IsSpace(v[0]) && NoTerminator(v)
    ensures LazyGroup(v) == Some(TrimEnd(v)) && TrimEnd(v) != ""
  {
    hide IsSpace, IsTerminator;
    TrimEndKeeps(v, 0);
    hide TrimEnd;
    assert v[..|TrimEnd(v)|] == TrimEnd(v);
  }

  /** One space and a one-line text with something in it: the heading is that text,
      trimmed. */
  lemma HeadingOf(hashes: string, t: string)
    requires !Blank(t) && NoTerminator(t)
    ensures HeadingText(hashes + " " + t, hashes) == Some(Trim(t)) && Trim(t) != ""
  {
    hide IsSpace, IsTerminator, LazyGroup, LeadingSpace, TrimEnd;
    var n, v := LeadingSpace(t), t[LeadingSpace(t)..];
    assert (hashes + " " + t)[|hashes|..] == " " + t;
    SpacedLeading(t);
    assert (" " + t)[n + 1..] == v;
    assert v == "" ==> n == |t|;
    LazyGroupOf(v);
  }

  lemma TrimTwice(t: string)
    ensures Trim(Trim(t)) == Trim(t)
  {
    hide IsSpace;
    if Trim(t) != "" {
      var v := t[LeadingSpace(t)..];
      assert TrimEnd(v)[0] == v[0];
      TrimSolid(TrimEnd(v));
    }
  }

  lemma TrimBlankText(t: string)
    requires Blank(t)
    ensures Trim(t) == "" && LeadingSpace(t) == |t|
  {
    hide IsSpace;
  }

  lemma TrimIs(t: string)
    ensures Trim(t) == TrimEnd(t[LeadingSpace(t)..])
  {
  }

  lemma SolidBehind(t: string)
    requires !Blank(t)
    ensures LeadingSpace(t) < |t|
  {
    hide IsSpace;
  }

  /** On nothing but space, the group takes the last character. */
  lemma LastSpace(u: string, k: nat)
    requires u != "" && k == |u| - 1 && NoTerminator(u) && Blank(u)
    ensures var g := OptionallySpaced(u, |u|); g.Some? && Trim(g.value) == ""
  {
    hide IsSpace, IsTerminator;
    assert u[|u|..] == "" && LazyGroup("") == None;
    var last := u[k..];
    assert last == [u[k]] && Blank(last);
    assert TrimEnd(last) == "";
    assert last[..1] == last;
    assert LazyGroup(last) == Some(last);
    TrimBlankText(last);
  }

  /** The group behind one space and a one-line text is that text, up to space around it. */
  lemma OptionallySpacedOf(t: string)
    requires NoTerminator(t)
    ensures var g := OptionallySpaced(" " + t, LeadingSpace(" " + t));
      g.Some? && Trim(g.value) == Trim(t)
  {
    hide IsSpace, LazyGroup, LeadingSpace, TrimEnd, Trim;
    var u, n := " " + t, LeadingSpace(t);
    SpacedLeading(t);
    if Blank(t) {
      TrimBlankText(t);
      LastSpace(u, |t|);
    } else {
      var v := t[n..];
      assert u[n + 1..] == v;
      SolidBehind(t);
      LazyGroupOf(v);
      TrimIs(t);
      TrimTwice(t);
    }
  }

  // ------------------------------------------------------------ blank lines

  function SkipBlank(lines: seq<string>): (r: seq<string>)
    ensures r != [] ==> !Blank(r[0])
    ensures |r| <= |lines| && r == lines[|lines| - |r|..]
  {
    if lines != [] && Blank(lines[0]) then SkipBlank(lines[1..]) else lines
  }

  function DropBlank(lines: seq<string>): (r: seq<string>)
    ensures r != [] ==> !Blank(r[|r| - 1])
    ensures r <= lines
  {
    if lines != [] && Blank(lines[|lines| - 1]) then DropBlank(lines[..|lines| - 1]) else lines
  }

  function TrimBlank(lines: seq<string>): seq<string> {
    DropBlank(SkipBlank(lines))
  }

  /** The two loops of `trimSectionBlankLines`. */
  method TrimSectionBlankLines(value: string) returns (r: string)
    ensures r == Join(TrimBlank(Lines(value)))
  {
    hide Lines, Join, Blank;
    var lines := Lines(value);
    while |lines| > 0 && Blank(lines[0])
      invariant SkipBlank(lines) == SkipBlank(Lines(value))
      decreases |lines|
    {
      lines := lines[1..];
    }
    while |lines| > 0 && Blank(lines[|lines| - 1])
      invariant DropBlank(lines) == TrimBlank(Lines(value))
      decreases |lines|
    {
      lines := lines[..|lines| - 1];
    }
    return Join(lines);
  }

  /** Blank lines around lines that begin and end with something go away. */
  lemma TrimBlankAround(lines: seq<string>)
    requires lines != [] && !Blank(lines[0]) && !Blank(lines[|lines| - 1])
    ensures TrimBlank([""] + lines + [""]) == lines
  {
    var all := [""] + lines + [""];
    assert Blank("");
    assert all[1..] == lines + [""];
    assert SkipBlank(all) == SkipBlank(lines + [""]) == lines + [""];
    assert (lines + [""])[..|lines|] == lines;
    assert DropBlank(lines + [""]) == DropBlank(lines) == lines;
  }

  /** What is left begins and ends with something, and consists of given lines. */
  lemma TrimBlankEnds(lines: seq<string>)
    ensures var r := TrimBlank(lines);
      && (r != [] ==> !Blank(r[0]) && !Blank(r[|r| - 1]))
      && forall line :: line in r ==> line in lines
  {
    var s := SkipBlank(lines);
    var r := DropBlank(s);
    forall line | line in r ensures line in lines {
      assert line in s;
    }
  }
}
