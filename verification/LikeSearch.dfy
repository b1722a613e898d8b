/** Escaping a search text for SQL's LIKE predicate
    (backend/internal/chat/helpers.go:159-162,
    backend/internal/chat/conversation_queries.go:28-52). */
module LikeSearch {
  import opened Text
  import opened Words

  /** What `strings.NewReplacer` puts in place of one character. */
  function EscapedChar(c: char): string {
    if c == '\\' then "\\\\" else if c == '%' then "\\%" else if c == '_' then "\\_" else [c]
  }

  /** `escapeLike` */
  function EscapeLike(input: string): string {
    if input == "" then "" else EscapedChar(input[0]) + EscapeLike(input[1..])
  }

  /** The pattern of ListConversations. */
  function SearchPattern(search: string): string {
    "%" + EscapeLike(search) + "%"
  }

  /** The LIKE predicate with ESCAPE '\' (section 8.5 of ISO/IEC 9075-2), up to a fold
      of characters that stands for the collation's case rule.  A pattern that ends in
      the escape character matches nothing. */
  predicate Like(pattern: string, text: string, fold: char -> char)
    decreases |pattern| + |text|
  {
    if pattern == "" then text == ""
    else if pattern[0] == '%' then
      Like(pattern[1..], text, fold) || (text != "" && Like(pattern, text[1..], fold))
    else if pattern[0] == '_' then
      text != "" && Like(pattern[1..], text[1..], fold)
    else if pattern[0] == '\\' then
      |pattern| > 1 && text != "" && fold(pattern[1]) == fold(text[0]) && Like(pattern[2..], text[1..], fold)
    else
      text != "" && fold(pattern[0]) == fold(text[0]) && Like(pattern[1..], text[1..], fold)
  }

  predicate SameUpTo(a: string, b: string, fold: char -> char) {
    |a| == |b| && forall i :: 0 <= i < |a| ==> fold(a[i]) == fold(b[i])
  }

  predicate MatchesAt(text: string, search: string, i: int, fold: char -> char) {
    0 <= i && i + |search| <= |text| && SameUpTo(search, text[i..i + |search|], fold)
  }

  /** `search` occurs in `text` as a contiguous part, up to the fold. */
  ghost predicate Contains(text: string, search: string, fold: char -> char) {
    exists i :: MatchesAt(text, search, i, fold)
  }

  /** An escaped character matches that character and nothing else. */
  lemma LikeEscapedChar(c: char, rest: string, text: string, fold: char -> char)
    ensures Like(EscapedChar(c) + rest, text, fold)
      <==> text != "" && fold(c) == fold(text[0]) && Like(rest, text[1..], fold)
  {
    var pattern := EscapedChar(c) + rest;
    if c == '\\' || c == '%' || c == '_' {
      assert pattern[0] == '\\' && pattern[1] == c && pattern[2..] == rest;
    } else {
      assert pattern[0] == c && pattern[1..] == rest;
    }
  }

  lemma PrefixSteps(s: string, text: string, fold: char -> char)
    requires 0 < |s| <= |text|
    ensures SameUpTo(s, text[..|s|], fold)
      <==> fold(s[0]) == fold(text[0]) && SameUpTo(s[1..], text[1..][..|s| - 1], fold)
  {
    if fold(s[0]) == fold(text[0]) && SameUpTo(s[1..], text[1..][..|s| - 1], fold) {
      forall i | 0 <= i < |s| ensures fold(s[i]) == fold(text[..|s|][i]) {
        if i > 0 {
          assert fold(s[1..][i - 1]) == fold(text[1..][..|s| - 1][i - 1]);
        }
      }
    }
    if SameUpTo(s, text[..|s|], fold) {
      forall i | 0 <= i < |s| - 1 ensures fold(s[1..][i]) == fold(text[1..][..|s| - 1][i]) {
        assert fold(s[i + 1]) == fold(text[..|s|][i + 1]);
      }
    }
  }

  /** In front of any pattern, an escaped text matches itself as a prefix. */
  lemma {:induction false} LikeEscaped(s: string, rest: string, text: string, fold: char -> char)
    ensures Like(EscapeLike(s) + rest, text, fold)
      <==> |s| <= |text| && SameUpTo(s, text[..|s|], fold) && Like(rest, text[|s|..], fold)
    decreases |s|
  {
    if s == "" {
      assert EscapeLike(s) + rest == rest;
      assert text[0..] == text;
    } else {
      hide Like;
      var more := EscapeLike(s[1..]) + rest;
      assert EscapeLike(s) + rest == EscapedChar(s[0]) + more;
      LikeEscapedChar(s[0], more, text, fold);
      if text != "" {
        LikeEscaped(s[1..], rest, text[1..], fold);
        if |s| <= |text| {
          assert text[1..][|s| - 1..] == text[|s|..];
          PrefixSteps(s, text, fold);
        }
      }
    }
  }

  lemma {:induction false} LikeAnything(text: string, fold: char -> char)
    ensures Like("%", text, fold)
  {
    assert "%"[1..] == "";
    if text == "" {
    } else {
      LikeAnything(text[1..], fold);
    }
  }

  /** A leading `%` lets the rest match from any position. */
  lemma {:induction false} LikeFromAnywhere(rest: string, text: string, fold: char -> char)
    ensures Like("%" + rest, text, fold) <==> exists i :: 0 <= i <= |text| && Like(rest, text[i..], fold)
    decreases |text|
  {
    var pattern := "%" + rest;
    assert pattern[1..] == rest;
    assert text[0..] == text;
    if text == "" {
    } else {
      LikeFromAnywhere(rest, text[1..], fold);
      forall i | 0 <= i < |text| ensures text[1..][i..] == text[i + 1..] { }
      if exists i :: 0 <= i <= |text[1..]| && Like(rest, text[1..][i..], fold) {
        var i :| 0 <= i <= |text[1..]| && Like(rest, text[1..][i..], fold);
        assert Like(rest, text[i + 1..], fold);
      }
      if exists i :: 0 <= i <= |text| && Like(rest, text[i..], fold) {
        var i :| 0 <= i <= |text| && Like(rest, text[i..], fold);
        if i > 0 {
          assert Like(rest, text[1..][i - 1..], fold);
        }
      }
    }
  }

  /** LIKE escaping preserves meaning: the pattern finds exactly the texts that
      contain the search text, whatever wildcards or escapes it is made of. */
  lemma SearchMeansContains(search: string, text: string, fold: char -> char)
    ensures Like(SearchPattern(search), text, fold) <==> Contains(text, search, fold)
  {
    hide Like, EscapeLike;
    assert SearchPattern(search) == "%" + (EscapeLike(search) + "%");
    LikeFromAnywhere(EscapeLike(search) + "%", text, fold);
    forall i | 0 <= i <= |text|
      ensures Like(EscapeLike(search) + "%", text[i..], fold) <==> MatchesAt(text, search, i, fold)
    {
      LikeEscaped(search, "%", text[i..], fold);
      if |search| <= |text[i..]| {
        LikeAnything(text[i..][|search|..], fold);
        assert text[i..][..|search|] == text[i..i + |search|];
      }
    }
    if Contains(text, search, fold) {
      var i :| MatchesAt(text, search, i, fold);
      assert Like(EscapeLike(search) + "%", text[i..], fold);
    }
  }

  // --------------------------------------------------- the list's condition

  /** A stored file, and a message with the files its links name.  `None` is a link whose
      file is gone: the outer join yields NULLs for it. */
  datatype File = File(name: string, extracted: Option<string>)

  datatype Entry = Entry(content: string, files: seq<Option<File>>)

  datatype Conversation = Conversation(
    owner: nat, archived: bool, title: string, folder: string, tags: Option<string>, entries: seq<Entry>)

  function Coalesce(text: Option<string>): string {
    if text.Some? then text.value else ""
  }

  /** The joined rows of a message: one without a file, if it has no links. */
  function JoinedRows(e: Entry): seq<Option<File>> {
    if e.files == [] then [None] else e.files
  }

  predicate FileLike(pattern: string, file: Option<File>, fold: char -> char) {
    match file
    case None => Like(pattern, "", fold)   // a NULL name matches nothing
    case Some(f) => Like(pattern, f.name, fold) || Like(pattern, Coalesce(f.extracted), fold)
  }

  /** The condition that is added when there is something to search for. */
  predicate Selects(pattern: string, c: Conversation, fold: char -> char) {
    || Like(pattern, c.title, fold)
    || Like(pattern, c.folder, fold)
    || Like(pattern, Coalesce(c.tags), fold)
    || (exists i :: 0 <= i < |c.entries| && Like(pattern, c.entries[i].content, fold))
    || exists i, k :: 0 <= i < |c.entries| && 0 <= k < |JoinedRows(c.entries[i])|
                      && FileLike(pattern, JoinedRows(c.entries[i])[k], fold)
  }

  /** The whole WHERE clause of ListConversations. */
  predicate Listed(user: nat, archived: bool, search: string, c: Conversation, fold: char -> char) {
    && c.owner == user && c.archived == archived
    && (TrimSpace(search) == "" || Selects(SearchPattern(TrimSpace(search)), c, fold))
  }

  ghost predicate FileMentions(file: Option<File>, search: string, fold: char -> char) {
    file.Some? && (Contains(file.value.name, search, fold)
                   || (file.value.extracted.Some? && Contains(file.value.extracted.value, search, fold)))
  }

  /** Some text of the conversation contains the search text. */
  ghost predicate Mentions(c: Conversation, search: string, fold: char -> char) {
    || Contains(c.title, search, fold)
    || Contains(c.folder, search, fold)
    || (c.tags.Some? && Contains(c.tags.value, search, fold))
    || (exists i :: 0 <= i < |c.entries| && Contains(c.entries[i].content, search, fold))
    || exists i, k :: 0 <= i < |c.entries| && 0 <= k < |c.entries[i].files|
                      && FileMentions(c.entries[i].files[k], search, fold)
  }

  lemma CoalesceContains(text: Option<string>, search: string, fold: char -> char)
    requires search != ""
    ensures Like(SearchPattern(search), Coalesce(text), fold) <==> text.Some? && Contains(text.value, search, fold)
  {
    SearchMeansContains(search, Coalesce(text), fold);
    hide Like, SearchPattern;
    if text == None {
      assert forall i :: !MatchesAt("", search, i, fold);
    }
  }

  lemma FileLikeMeans(file: Option<File>, search: string, fold: char -> char)
    requires search != ""
    ensures FileLike(SearchPattern(search), file, fold) <==> FileMentions(file, search, fold)
  {
    CoalesceContains(None, search, fold);
    if file.Some? {
      SearchMeansContains(search, file.value.name, fold);
      CoalesceContains(file.value.extracted, search, fold);
    }
    hide Like, SearchPattern, Contains;
  }

  lemma NoFile(search: string, fold: char -> char)
    ensures !FileMentions(None, search, fold)
  {
  }

  /** The list shows exactly the user's conversations, archived or not as asked, in which the
      trimmed search text occurs, or all of them if it is blank. */
  lemma ListedMeansMentions(user: nat, archived: bool, search: string, c: Conversation, fold: char -> char)
    ensures Listed(user, archived, search, c, fold) <==>
      && c.owner == user && c.archived == archived
      && (TrimSpace(search) == "" || Mentions(c, TrimSpace(search), fold))
  {
    var text := TrimSpace(search);
    hide Like, SearchPattern, Contains, TrimSpace, FileLike, FileMentions;
    if text != "" {
      SearchMeansContains(text, c.title, fold);
      SearchMeansContains(text, c.folder, fold);
      CoalesceContains(c.tags, text, fold);
      FileLikeMeans(None, text, fold);
      assert !FileMentions(None, text, fold) by { NoFile(text, fold); }
      forall i | 0 <= i < |c.entries|
        ensures Like(SearchPattern(text), c.entries[i].content, fold) <==> Contains(c.entries[i].content, text, fold)
      {
        SearchMeansContains(text, c.entries[i].content, fold);
      }
      forall i, k | 0 <= i < |c.entries| && 0 <= k < |JoinedRows(c.entries[i])|
        ensures FileLike(SearchPattern(text), JoinedRows(c.entries[i])[k], fold)
          <==> k < |c.entries[i].files| && FileMentions(c.entries[i].files[k], text, fold)
      {
        FileLikeMeans(JoinedRows(c.entries[i])[k], text, fold);
      }
    }
  }

  /** Escaping leaves alone exactly the texts without any of the three specials. */
  lemma {:induction false} EscapeChangesOnlySpecials(s: string)
    ensures EscapeLike(s) == s <==> forall i :: 0 <= i < |s| ==> s[i] != '\\' && s[i] != '%' && s[i] != '_'
    ensures |EscapeLike(s)| >= |s|
  {
    if s == "" {
    } else {
      EscapeChangesOnlySpecials(s[1..]);
      assert s == [s[0]] + s[1..];
      if EscapeLike(s) == s {
        assert |EscapedChar(s[0])| == 1;
        assert EscapeLike(s)[1..] == EscapeLike(s[1..]);
      }
    }
  }

  /** `input` itself can be read back from its escaped form. */
  function Unescape(s: string): string {
    if s == "" then ""
    else if s[0] == '\\' && |s| > 1 then [s[1]] + Unescape(s[2..])
    else [s[0]] + Unescape(s[1..])
  }

  lemma {:induction false} UnescapeEscape(s: string)
    ensures Unescape(EscapeLike(s)) == s
  {
    if s == "" {
    } else {
      UnescapeEscape(s[1..]);
      var more := EscapeLike(s[1..]);
      assert EscapeLike(s) == EscapedChar(s[0]) + more;
      if |EscapedChar(s[0])| == 2 {
        assert EscapeLike(s)[2..] == more;
      } else {
        assert EscapeLike(s)[1..] == more;
      }
    }
  }
}
