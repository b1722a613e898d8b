/** Reading a conversation page by page, newest page first
    (backend/internal/chat/messages_page.go). */
module Paging {
  import opened Text

  datatype Message = Message(id: nat, conversation: nat, content: string)

  datatype Page = Page(messages: seq<Message>, hasMore: bool, nextBeforeID: Option<nat>)

  /** The message table in the order of its primary key. */
  ghost predicate Ascending(table: seq<Message>) {
    && (forall i :: 0 <= i < |table| ==> table[i].id > 0)
    && forall i, j :: 0 <= i < j < |table| ==> table[i].id < table[j].id
  }

  /** No limit means 50, and 200 is the most. */
  function Clamped(limit: int): (r: nat)
    ensures 1 <= r <= 200
  {
    if limit <= 0 then 50 else if limit > 200 then 200 else limit
  }

  /** The rows of a conversation below the cursor, oldest first; a zero cursor is none. */
  function Selected(table: seq<Message>, conversation: nat, before: Option<nat>): seq<Message> {
    if table == [] then []
    else
      var rest, m := Selected(table[..|table| - 1], conversation, before), table[|table| - 1];
      var below := before == None || before.value == 0 || m.id < before.value;
      if m.conversation == conversation && below then rest + [m] else rest
  }

  function NewestPage(rows: seq<Message>, size: nat): Page
    requires size > 0
  {
    if |rows| > size then Page(rows[|rows| - size..], true, Some(rows[|rows| - size].id))
    else Page(rows, false, None)
  }

  /** A page is the newest `limit` of the selected rows, oldest first; its first row is
      the cursor of the next page, if rows remain. */
  function PageOf(table: seq<Message>, conversation: nat, before: Option<nat>, limit: int): Page {
    NewestPage(Selected(table, conversation, before), Clamped(limit))
  }

  /** A limit from 1 to 200 is the size of a page, none means 50, and more than 200 means 200; the
      page holds the newest rows, and says whether there are more and where they begin. */
  lemma PageIs(table: seq<Message>, conversation: nat, before: Option<nat>, limit: int)
    ensures var rows, page := Selected(table, conversation, before), PageOf(table, conversation, before, limit);
      var size := if 1 <= limit <= 200 then limit else if limit < 1 then 50 else 200;
      && page.hasMore == (|rows| > size)
      && page.messages == (if page.hasMore then rows[|rows| - size..] else rows)
      && page.nextBeforeID == (if page.hasMore then Some(page.messages[0].id) else None)
  {
    hide Selected;
  }

  function Reversed<T>(s: seq<T>): (r: seq<T>)
    ensures |r| == |s|
    ensures forall i :: 0 <= i < |s| ==> r[i] == s[|s| - 1 - i]
  {
    if s == [] then [] else Reversed(s[1..]) + [s[0]]
  }

  lemma IsReversed(s: seq<Message>, t: seq<Message>)
    requires |t| == |s| && forall i :: 0 <= i < |s| ==> t[i] == s[|s| - 1 - i]
    ensures t == Reversed(s)
  {
  }

  /** `reverseMessages` on the slice of the first `length` elements. */
  method ReverseMessages(messages: array<Message>, length: nat)
    requires length <= messages.Length
    modifies messages
    ensures messages[..length] == Reversed(old(messages[..length]))
    ensures messages[length..] == old(messages[length..])
  {
    hide Reversed;
    var left, right := 0, length - 1;
    ghost var was := messages[..];
    while left < right
      invariant 0 <= left && right == length - 1 - left && right >= left - 1
      invariant forall k :: 0 <= k < messages.Length ==>
        messages[k] == was[if k < left || right < k < length then length - 1 - k else k]
    {
      messages[left], messages[right] := messages[right], messages[left];
      left, right := left + 1, right - 1;
    }
    IsReversed(was[..length], messages[..length]);
  }

  /** What the ordered query with a limit returns. */
  function Queried(rows: seq<Message>, most: nat): (found: seq<Message>)
    ensures |found| == if |rows| > most then most else |rows|
  {
    var down := Reversed(rows);
    if |down| > most then down[..most] else down
  }

  lemma NewestInOrder(rows: seq<Message>, most: nat, k: nat)
    requires k <= |Queried(rows, most)|
    ensures Reversed(Queried(rows, most)[..k]) == rows[|rows| - k..]
  {
    var down := Queried(rows, most);
    assert forall i :: 0 <= i < k ==> Reversed(down[..k])[i] == down[k - 1 - i] == rows[|rows| - k + i];
  }

  /** Cuts and turns what the query found. */
  method Loaded(rows: seq<Message>, limit: nat) returns (page: Page)
    requires limit > 0
    ensures page == NewestPage(rows, limit)
  {
    hide Reversed, Queried;
    var found := Queried(rows, limit + 1);
    var messages := new Message[|found|](i requires 0 <= i < |found| => found[i]);
    assert messages[..] == found;
    var length := messages.Length;
    var hasMore := length > limit;
    if hasMore {
      length := limit;
    }
    assert messages[..length] == found[..length];
    NewestInOrder(rows, limit + 1, length);
    ReverseMessages(messages, length);
    ghost var newest := rows[|rows| - length..];
    assert messages[..length] == newest;
    assert !hasMore ==> newest == rows;
    var next := None;
    if hasMore && length > 0 {
      assert messages[0] == newest[0];
      next := Some(messages[0].id);
    }
    return Page(messages[..length], hasMore, next);
  }

  /** `ListMessagesPage`; `None` is the error for a conversation that is not the user's. */
  method ListMessagesPage(owners: map<nat, nat>, table: seq<Message>,
                          user: nat, conversation: nat, limit: int, before: Option<nat>)
      returns (r: Option<Page>)
    ensures r == if conversation in owners && owners[conversation] == user
                 then Some(PageOf(table, conversation, before, limit)) else None
  {
    if !(conversation in owners && owners[conversation] == user) {
      return None;
    }
    var size := limit;
    if size <= 0 {
      size := 50;
    }
    if size > 200 {
      size := 200;
    }
    var page := Loaded(Selected(table, conversation, before), size);
    return Some(page);
  }

  // ------------------------------------------------------------- all pages

  lemma EarlierIsSmaller(table: seq<Message>, m: Message)
    requires Ascending(table) && table != [] && m in table[..|table| - 1]
    ensures m.id < table[|table| - 1].id
  {
  }

  lemma {:induction false} SelectedRows(table: seq<Message>, conversation: nat, before: Option<nat>)
    requires Ascending(table)
    ensures var rows := Selected(table, conversation, before);
      Ascending(rows) && forall i :: 0 <= i < |rows| ==> rows[i] in table
  {
    if table == [] {
    } else {
      var n := |table| - 1;
      SelectedRows(table[..n], conversation, before);
      var shorter := Selected(table[..n], conversation, before);
      forall i | 0 <= i < |shorter| ensures shorter[i].id < table[n].id {
        EarlierIsSmaller(table, shorter[i]);
      }
    }
  }

  /** The selected rows are just the conversation's rows below the cursor. */
  lemma {:induction false} SelectedExactly(table: seq<Message>, conversation: nat, before: Option<nat>, m: Message)
    ensures m in Selected(table, conversation, before) <==>
      && m in table && m.conversation == conversation
      && (before == None || before.value == 0 || m.id < before.value)
  {
    if table == [] {
    } else {
      var n := |table| - 1;
      SelectedExactly(table[..n], conversation, before, m);
      assert table == table[..n] + [table[n]];
    }
  }

  /** A higher cursor selects the same rows. */
  lemma {:induction false} AllBelow(table: seq<Message>, conversation: nat, before: Option<nat>, bound: nat)
    requires bound > 0 && (before == None || before.value == 0 || bound < before.value)
    requires forall i :: 0 <= i < |table| ==> table[i].id < bound
    ensures Selected(table, conversation, Some(bound)) == Selected(table, conversation, before)
  {
    if table == [] {
    } else {
      var n := |table| - 1;
      AllBelow(table[..n], conversation, before, bound);
    }
  }

  /** Moving the cursor to a row that was selected selects exactly the rows before it. */
  lemma {:induction false} CursorCuts(table: seq<Message>, conversation: nat, before: Option<nat>, k: nat)
    requires Ascending(table) && k < |Selected(table, conversation, before)|
    ensures var rows := Selected(table, conversation, before);
      Selected(table, conversation, Some(rows[k].id)) == rows[..k]
  {
    var n, rows := |table| - 1, Selected(table, conversation, before);
    var shorter := Selected(table[..n], conversation, before);
    SelectedRows(table, conversation, before);
    if k < |shorter| {
      assert rows[k] == shorter[k] && rows[..k] == shorter[..k];
      CursorCuts(table[..n], conversation, before, k);
      SelectedRows(table[..n], conversation, before);
      hide Ascending;
      assert shorter[k] in table[..n];
      EarlierIsSmaller(table, shorter[k]);
    } else {
      assert rows == shorter + [table[n]];
      AllBelow(table[..n], conversation, before, table[n].id);
      assert rows[..k] == shorter;
    }
  }

  /** Following `nextBeforeID` until there is none. */
  function Followed(table: seq<Message>, conversation: nat, before: Option<nat>, limit: int): seq<Page>
    requires Ascending(table)
    decreases |Selected(table, conversation, before)|
  {
    var page := PageOf(table, conversation, before, limit);
    if page.nextBeforeID == None then [page]
    else
      var rows := Selected(table, conversation, before);
      CursorCuts(table, conversation, before, |rows| - Clamped(limit));
      [page] + Followed(table, conversation, page.nextBeforeID, limit)
  }

  /** The pages' messages, the last page first. */
  function OldestFirst(pages: seq<Page>): seq<Message> {
    if pages == [] then [] else OldestFirst(pages[1..]) + pages[0].messages
  }

  lemma FollowedStep(table: seq<Message>, conversation: nat, before: Option<nat>, limit: int)
    requires Ascending(table)
    ensures var page := PageOf(table, conversation, before, limit);
      Followed(table, conversation, before, limit) == [page] +
        if page.nextBeforeID == None then [] else Followed(table, conversation, page.nextBeforeID, limit)
  {
    hide PageOf, Selected;
  }

  lemma OldestLast(page: Page, later: seq<Page>)
    ensures OldestFirst([page] + later) == OldestFirst(later) + page.messages
    ensures OldestFirst([]) == []
  {
    assert ([page] + later)[1..] == later;
  }

  lemma OneMore(pages: nat, size: nat, k: nat)
    requires (pages - 1) * size < k <= pages * size
    ensures (pages + 1 - 1) * size < k + size <= (pages + 1) * size
  {
    assert (pages + 1) * size == pages * size + size;
    assert (pages - 1) * size == pages * size - size;
  }

  /** From any cursor, the pages hold every row below it once, in order, and their number
      is that of the rows divided by the limit, rounded up. */
  lemma {:induction false} PagesAreComplete(table: seq<Message>, conversation: nat, before: Option<nat>, limit: int)
    requires Ascending(table)
    ensures var rows := Selected(table, conversation, before);
      var pages := Followed(table, conversation, before, limit);
      && OldestFirst(pages) == rows
      && (if rows == [] then |pages| == 1 else (|pages| - 1) * Clamped(limit) < |rows| <= |pages| * Clamped(limit))
    decreases |Selected(table, conversation, before)|
  {
    var rows, size := Selected(table, conversation, before), Clamped(limit);
    var page := PageOf(table, conversation, before, limit);
    FollowedStep(table, conversation, before, limit);
    if |rows| > size {
      var k := |rows| - size;
      var later := Followed(table, conversation, page.nextBeforeID, limit);
      CursorCuts(table, conversation, before, k);
      hide Selected, Clamped, Followed;
      PagesAreComplete(table, conversation, page.nextBeforeID, limit);
      OldestLast(page, later);
      hide OldestFirst;
      assert rows[..k] + rows[k..] == rows;
      OneMore(|later|, size, k);
    } else {
      hide Selected, Clamped, Followed;
      OldestLast(page, []);
      assert [page] + [] == [page];
      assert [] + rows == rows;
    }
  }

  /** Messages that arrive while the pages are read do not disturb the older pages. */
  lemma {:induction false} NewerRowsKeepOlderPages(table: seq<Message>, newer: seq<Message>,
                                                   conversation: nat, cursor: nat, limit: int)
    requires cursor > 0 && forall i :: 0 <= i < |newer| ==> cursor <= newer[i].id
    ensures PageOf(table + newer, conversation, Some(cursor), limit) == PageOf(table, conversation, Some(cursor), limit)
    decreases |newer|
  {
    if newer == [] {
      assert table + newer == table;
    } else {
      var n := |newer| - 1;
      NewerRowsKeepOlderPages(table, newer[..n], conversation, cursor, limit);
      assert (table + newer)[..|table| + n] == table + newer[..n];
    }
  }
}
