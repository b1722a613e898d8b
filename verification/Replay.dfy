/** Sending, retrying, regenerating and editing: the transactions on the message table
    (backend/internal/chat/generation_persistence.go) and the clean-up behind them. */
module Replay {
  import opened Text
  import opened Words
  import opened Events
  import opened Attachments
  import opened Hydration

  /** `WriteRefused` is an insert that the primary key refuses. */
  datatype Outcome = Applied | RecordNotFound | InvalidAction | WriteRefused

  // ------------------------------------------------------------- queries

  ghost predicate IsUserBefore(messages: map<nat, Row>, conversation: nat, before: nat, k: nat) {
    k in messages && messages[k].conversation == conversation && messages[k].role == User && k < before
  }

  /** `previousUserMessage`, looking down from `before`. */
  function PreviousUser(messages: map<nat, Row>, conversation: nat, before: nat): Option<nat> {
    if before == 0 then None
    else
      var k := before - 1;
      if k in messages && messages[k].conversation == conversation && messages[k].role == User then Some(k)
      else PreviousUser(messages, conversation, k)
  }

  lemma {:induction false} PreviousUserIs(messages: map<nat, Row>, conversation: nat, before: nat)
    ensures match PreviousUser(messages, conversation, before)
      case None => forall k: nat :: !IsUserBefore(messages, conversation, before, k)
      case Some(u) =>
        && IsUserBefore(messages, conversation, before, u)
        && forall k: nat :: IsUserBefore(messages, conversation, before, k) ==> k <= u
  {
    if before == 0 {
    } else {
      PreviousUserIs(messages, conversation, before - 1);
      assert forall k: nat :: IsUserBefore(messages, conversation, before, k) <==>
        || IsUserBefore(messages, conversation, before - 1, k)
        || (k == before - 1 && IsUserBefore(messages, conversation, before, before - 1));
    }
  }

  lemma {:induction false} SamePreviousUser(a: map<nat, Row>, b: map<nat, Row>, conversation: nat, before: nat)
    requires forall k: nat :: k < before ==> (k in a <==> k in b) && (k in a ==> a[k] == b[k])
    ensures PreviousUser(a, conversation, before) == PreviousUser(b, conversation, before)
  {
    if before == 0 {
    } else {
      SamePreviousUser(a, b, conversation, before - 1);
    }
  }

  predicate IsLatestUser(messages: map<nat, Row>, conversation: nat, id: nat) {
    forall k :: k in messages && messages[k].conversation == conversation && messages[k].role == User ==> k <= id
  }

  predicate Holds(messages: map<nat, Row>, conversation: nat, id: nat) {
    id in messages && messages[id].conversation == conversation
  }

  // --------------------------------------------------------- transactions

  function Placeholder(conversation: nat): Row {
    Row(conversation, Assistant, "", "", Streaming, [])
  }

  function Trailing(messages: map<nat, Row>, conversation: nat, id: nat): set<nat> {
    set k | k in messages && messages[k].conversation == conversation && k > id
  }

  /** `deleteTrailingMessages` */
  function CutAfter(messages: map<nat, Row>, conversation: nat, id: nat): map<nat, Row> {
    messages - Trailing(messages, conversation, id)
  }

  /** The row of a reset message; the stored reasoning stays until the run is finalized. */
  function ResetRow(row: Row): Row {
    row.(content := "", inlined := [], status := Streaming)
  }

  function ReplayOutcome(t: Tables, conversation: nat, id: nat, allowed: seq<Status>): Outcome {
    if !Holds(t.messages, conversation, id) then RecordNotFound
    else if t.messages[id].role != Assistant then InvalidAction
    else if allowed != [] && t.messages[id].status !in allowed then InvalidAction
    else if PreviousUser(t.messages, conversation, id) == None then InvalidAction
    else Applied
  }

  function Replayed(t: Tables, conversation: nat, id: nat): Tables
    requires id in t.messages
  {
    var w := Written(t, id, ResetRow(t.messages[id]));
    w.(messages := CutAfter(w.messages, conversation, id))
  }

  function EditOutcome(t: Tables, conversation: nat, id: nat, list: seq<Attachment>): Outcome {
    if !Holds(t.messages, conversation, id) then RecordNotFound
    else if t.messages[id].role != User || !IsLatestUser(t.messages, conversation, id) then InvalidAction
    else if Repeats(list) then WriteRefused
    else Applied
  }

  function EditedRow(row: Row, content: string, list: seq<Attachment>): Row {
    row.(content := content, inlined := list, status := Completed)
  }

  function Edited(t: Tables, conversation: nat, id: nat, content: string, list: seq<Attachment>, newId: nat): Tables
    requires id in t.messages
  {
    var w := Written(t, id, EditedRow(t.messages[id], content, list));
    Written(w.(messages := CutAfter(w.messages, conversation, id)), newId, Placeholder(conversation))
  }

  function Sent(t: Tables, conversation: nat, content: string, list: seq<Attachment>, userId: nat, newId: nat): Tables {
    Written(Written(t, userId, Row(conversation, User, content, "", Completed, list)), newId, Placeholder(conversation))
  }

  /** The database gives a new row a higher id than any row it has; ids of deleted rows may
      come again. */
  ghost predicate Next(messages: map<nat, Row>, id: nat) {
    forall k :: k in messages ==> k < id
  }

  function TrimmedIds(list: seq<Attachment>): set<string> {
    set i | 0 <= i < |list| && TrimSpace(list[i].id) != "" :: TrimSpace(list[i].id)
  }

  function LinksTo(links: set<Link>, id: string): set<Link> {
    set l | l in links && l.attachment == id
  }

  /** `referenceCount`: all links count, those of deleted messages too. */
  function ReferenceCount(links: set<Link>, id: string): nat {
    |LinksTo(links, id)|
  }

  lemma CountIsZero(links: set<Link>, id: string)
    ensures ReferenceCount(links, id) == 0 <==> Unreferenced(links, id)
  {
    assert Unreferenced(links, id) ==> LinksTo(links, id) == {};
    if ReferenceCount(links, id) == 0 {
      forall l | l in links ensures l.attachment != id {
        assert l !in LinksTo(links, id);
      }
    }
  }

  lemma TrimmedMore(list: seq<Attachment>, k: nat)
    requires k < |list|
    ensures var id := TrimSpace(list[k].id);
      TrimmedIds(list[..k + 1]) == TrimmedIds(list[..k]) + if id != "" then {id} else {}
  {
    hide TrimSpace;
    var more, fewer := list[..k + 1], list[..k];
    assert more == fewer + [list[k]];
    forall id | id in TrimmedIds(fewer) ensures id in TrimmedIds(more) {
      var i :| 0 <= i < k && TrimSpace(fewer[i].id) == id && id != "";
      assert more[i] == fewer[i];
    }
    if TrimSpace(list[k].id) != "" {
      assert more[k] == list[k];
    }
    forall id | id in TrimmedIds(more) && id != TrimSpace(list[k].id) ensures id in TrimmedIds(fewer) {
      var i :| 0 <= i < k + 1 && TrimSpace(more[i].id) == id && id != "";
      assert fewer[i] == more[i];
    }
  }

  method ContainsStatus(statuses: seq<Status>, candidate: Status) returns (found: bool)
    ensures found <==> candidate in statuses
  {
    for i := 0 to |statuses|
      invariant candidate !in statuses[..i]
    {
      if statuses[i] == candidate {
        return true;
      }
    }
    return false;
  }

  class MessageStore {
    var messages: map<nat, Row>
    var links: set<Link>
    var stored: map<string, Stored>

    ghost function State(): Tables
      reads this
    {
      Tables(messages, links, stored)
    }

    /** A refused write is undone with the transaction it is part of. */
    method CreateMessageRecord(id: nat, row: Row) returns (ok: bool)
      requires id !in messages
      modifies this`messages, this`links
      ensures ok <==> !Repeats(row.inlined)
      ensures State() == if ok then Written(old(State()), id, row) else old(State())
    {
      var replaced := ReplaceMessageAttachmentLinks(links, id, row.inlined);
      if replaced == None {
        return false;
      }
      messages := messages[id := row];
      links := replaced.value;
      return true;
    }

    method UpdateMessageRecord(id: nat, content: string, list: seq<Attachment>, status: Status) returns (ok: bool)
      requires id in messages
      modifies this`messages, this`links
      ensures ok <==> !Repeats(list)
      ensures State() ==
        if ok then Written(old(State()), id, old(messages)[id].(content := content, inlined := list, status := status))
        else old(State())
    {
      var replaced := ReplaceMessageAttachmentLinks(links, id, list);
      if replaced == None {
        return false;
      }
      messages := messages[id := messages[id].(content := content, inlined := list, status := status)];
      links := replaced.value;
      return true;
    }

    method DeleteTrailingMessages(conversation: nat, id: nat)
      modifies this`messages
      ensures messages == CutAfter(old(messages), conversation, id)
    {
      messages := messages - set k | k in messages && messages[k].conversation == conversation && k > id;
    }

    method CreateAssistantReply(conversation: nat, content: string, list: seq<Attachment>, userId: nat, newId: nat)
        returns (ok: bool)
      requires Next(messages, userId) && userId < newId
      modifies this`messages, this`links
      ensures ok <==> !Repeats(list)
      ensures State() == if ok then Sent(old(State()), conversation, content, list, userId, newId) else old(State())
    {
      ok := CreateMessageRecord(userId, Row(conversation, User, content, "", Completed, list));
      if !ok {
        return;
      }
      ok := CreateMessageRecord(newId, Placeholder(conversation));
    }

    method PrepareAssistantReplay(conversation: nat, id: nat, allowed: seq<Status>) returns (r: Outcome)
      modifies this`messages, this`links
      ensures r == ReplayOutcome(old(State()), conversation, id, allowed)
      ensures State() == if r == Applied then Replayed(old(State()), conversation, id) else old(State())
    {
      if !Holds(messages, conversation, id) {
        return RecordNotFound;
      }
      if messages[id].role != Assistant {
        return InvalidAction;
      }
      if |allowed| > 0 {
        var contained := ContainsStatus(allowed, messages[id].status);
        if !contained {
          return InvalidAction;
        }
      }
      if PreviousUser(messages, conversation, id) == None {
        return InvalidAction;
      }
      hide PreviousUser, CutAfter, LinksReplaced;
      var ok := UpdateMessageRecord(id, "", [], Streaming);
      DeleteTrailingMessages(conversation, id);
      return Applied;
    }

    method EditUserMessageForRegeneration(conversation: nat, id: nat, content: string, list: seq<Attachment>,
                                          newId: nat)
        returns (r: Outcome)
      requires Next(CutAfter(messages, conversation, id), newId)
      modifies this`messages, this`links
      ensures r == EditOutcome(old(State()), conversation, id, list)
      ensures State() ==
        if r == Applied then Edited(old(State()), conversation, id, content, list, newId) else old(State())
    {
      if !Holds(messages, conversation, id) {
        return RecordNotFound;
      }
      if messages[id].role != User {
        return InvalidAction;
      }
      if !IsLatestUser(messages, conversation, id) {
        return InvalidAction;
      }
      assert id in CutAfter(messages, conversation, id);
      var ok := UpdateMessageRecord(id, content, list, Completed);
      if !ok {
        return WriteRefused;
      }
      DeleteTrailingMessages(conversation, id);
      assert messages.Keys == CutAfter(old(messages), conversation, id).Keys;
      ok := CreateMessageRecord(newId, Placeholder(conversation));
      return Applied;
    }

    /** Rows are removed one by one; those with a link are passed over. */
    method CleanupUnreferenced(list: seq<Attachment>)
      modifies this`stored
      ensures State() == CleanedUp(old(State()), TrimmedIds(list))
      ensures forall id :: id in stored <==>
        && id in old(stored)
        && !(&& id != "" && (exists i :: 0 <= i < |list| && TrimSpace(list[i].id) == id)
             && forall l :: l in links ==> l.attachment != id)
    {
      hide TrimSpace;
      var seen: set<string> := {};
      ghost var before := stored;
      for k := 0 to |list|
        invariant seen == TrimmedIds(list[..k])
        invariant forall id :: id in stored <==> id in before && !(id in seen && Unreferenced(links, id))
        invariant forall id :: id in stored ==> stored[id] == before[id]
      {
        var id := TrimSpace(list[k].id);
        assert TrimmedIds(list[..k + 1]) == TrimmedIds(list[..k]) + if id != "" then {id} else {} by {
          TrimmedMore(list, k);
        }
        if id == "" || id in seen {
          continue;
        }
        seen := seen + {id};
        var count := ReferenceCount(links, id);
        CountIsZero(links, id);
        if count > 0 {
          continue;
        }
        if id !in stored {
          continue;
        }
        stored := stored - {id};
      }
      assert list[..|list|] == list;
    }
  }

  // --------------------------------------------------- the past is untouched

  /** What a replay or an edit of message `id` must not touch. */
  ghost predicate IsPast(messages: map<nat, Row>, conversation: nat, id: nat, k: nat) {
    k in messages && k != id && !(messages[k].conversation == conversation && k > id)
  }

  /** A replay leaves the past's rows and links alone, resets its target, and drops exactly
      the later messages of the conversation. */
  lemma ReplayKeepsPast(t: Tables, conversation: nat, id: nat)
    requires Holds(t.messages, conversation, id)
    ensures var t' := Replayed(t, conversation, id);
      && (forall k :: k in t'.messages <==> k == id || IsPast(t.messages, conversation, id, k))
      && (forall k :: IsPast(t.messages, conversation, id, k) ==> t'.messages[k] == t.messages[k])
      && t'.messages[id] == Row(conversation, t.messages[id].role, "", t.messages[id].reasoning, Streaming, [])
      && (forall l: Link :: l in t'.links <==> l in t.links && l.message != id)
      && t'.stored == t.stored
  {
  }

  lemma NoLinks(message: nat)
    ensures LinksFor(message, []) == []
  {
  }

  lemma KeptMessages(messages: map<nat, Row>, conversation: nat, id: nat)
    ensures forall k :: IsPast(messages, conversation, id, k) ==> k in CutAfter(messages, conversation, id)
  {
  }

  lemma {:induction false} LinksForOnly(message: nat, list: seq<Attachment>)
    ensures forall l :: l in LinksFor(message, list) ==> l.message == message
  {
    if list == [] {
    } else {
      LinksForOnly(message, list[..|list| - 1]);
    }
  }

  /** An edit does the same, and adds one new assistant message behind the edited one. */
  lemma EditKeepsPast(t: Tables, conversation: nat, id: nat, content: string, list: seq<Attachment>, newId: nat)
    requires Holds(t.messages, conversation, id)
    requires Next(CutAfter(t.messages, conversation, id), newId)
    ensures var t' := Edited(t, conversation, id, content, list, newId);
      && newId > id && !IsPast(t.messages, conversation, id, newId)
      && (forall k :: k in t'.messages <==> k == id || k == newId || IsPast(t.messages, conversation, id, k))
      && (forall k :: IsPast(t.messages, conversation, id, k) ==> t'.messages[k] == t.messages[k])
      && t'.messages[id] ==
           Row(conversation, t.messages[id].role, content, t.messages[id].reasoning, Completed, list)
      && t'.messages[newId] == Row(conversation, Assistant, "", "", Streaming, [])
      && (forall l: Link :: l.message != id && l.message != newId ==> (l in t'.links <==> l in t.links))
      && t'.stored == t.stored
  {
    hide LinksFor;
    assert LinksFor(newId, []) == [] by { NoLinks(newId); }
    assert id in CutAfter(t.messages, conversation, id);
    KeptMessages(t.messages, conversation, id);
    LinksForOnly(id, list);
  }

  /** Sending adds exactly two rows, the user's text with its list and an empty assistant message
      that is being streamed, and leaves all earlier rows and their links alone. */
  lemma SentRows(t: Tables, conversation: nat, content: string, list: seq<Attachment>, userId: nat, newId: nat)
    requires Next(t.messages, userId) && userId < newId
    ensures var t' := Sent(t, conversation, content, list, userId, newId);
      && t'.messages.Keys == t.messages.Keys + {userId, newId}
      && (forall k :: k in t.messages ==> t'.messages[k] == t.messages[k])
      && t'.messages[userId] == Row(conversation, User, content, "", Completed, list)
      && t'.messages[newId] == Row(conversation, Assistant, "", "", Streaming, [])
      && (forall l: Link :: l.message != userId && l.message != newId ==> (l in t'.links <==> l in t.links))
      && t'.stored == t.stored
  {
    hide LinksFor;
    assert LinksFor(newId, []) == [] by { NoLinks(newId); }
    LinksForOnly(userId, list);
  }

  // ----------------------------------------------------- when they go through

  /** A replay goes through exactly for an assistant message of the conversation that has one of
      the allowed states, if any are asked for, and a user message before it. */
  lemma ReplayGoesThrough(t: Tables, conversation: nat, id: nat, allowed: seq<Status>)
    ensures var r := ReplayOutcome(t, conversation, id, allowed);
      var held := id in t.messages && t.messages[id].conversation == conversation;
      && (r == RecordNotFound <==> !held)
      && (r == Applied <==>
            && held && t.messages[id].role == Assistant
            && (allowed == [] || t.messages[id].status in allowed)
            && exists k :: IsUserBefore(t.messages, conversation, id, k))
      && r != WriteRefused
  {
    PreviousUserIs(t.messages, conversation, id);
    hide PreviousUser;
  }

  /** An edit goes through exactly for the last user message of the conversation, with a list
      that names no upload twice. */
  lemma EditGoesThrough(t: Tables, conversation: nat, id: nat, list: seq<Attachment>)
    ensures var r := EditOutcome(t, conversation, id, list);
      var held := id in t.messages && t.messages[id].conversation == conversation;
      var last := held && t.messages[id].role == User
        && forall k :: k in t.messages && t.messages[k].conversation == conversation && k > id ==>
             t.messages[k].role == Assistant;
      && (r == RecordNotFound <==> !held)
      && (r == InvalidAction <==> held && !last)
      && (r == WriteRefused <==> last && exists i, j :: 0 <= i < j < |list| && list[i].id == list[j].id != "")
      && (r == Applied <==> last && forall i, j :: 0 <= i < j < |list| && list[i].id != "" ==> list[i].id != list[j].id)
  {
  }

  // ------------------------------------------------------ the prompt is found

  /** After a replay that went through, and any clean-up, the look-up of the user message
      to answer finds the one it found before. */
  lemma ReplayFindsUser(t: Tables, conversation: nat, id: nat, allowed: seq<Status>, ids: set<string>)
    requires ReplayOutcome(t, conversation, id, allowed) == Applied
    ensures var t' := CleanedUp(Replayed(t, conversation, id), ids);
      var u := PreviousUser(t'.messages, conversation, id);
      && u == PreviousUser(t.messages, conversation, id) && u.Some?
      && u.value in t'.messages && t'.messages[u.value] == t.messages[u.value]
  {
    var t' := Replayed(t, conversation, id);
    ReplayKeepsPast(t, conversation, id);
    PreviousUserIs(t.messages, conversation, id);
    hide PreviousUser, Replayed;
    SamePreviousUser(t.messages, t'.messages, conversation, id);
  }

  /** After an edit the new assistant message answers the edited one. */
  lemma EditFindsUser(t: Tables, conversation: nat, id: nat, content: string, list: seq<Attachment>, newId: nat)
    requires EditOutcome(t, conversation, id, list) == Applied
    requires Next(CutAfter(t.messages, conversation, id), newId)
    ensures PreviousUser(Edited(t, conversation, id, content, list, newId).messages, conversation, newId) == Some(id)
  {
    var t' := Edited(t, conversation, id, content, list, newId);
    EditKeepsPast(t, conversation, id, content, list, newId);
    PreviousUserIs(t'.messages, conversation, newId);
    hide PreviousUser, Edited;
    assert IsUserBefore(t'.messages, conversation, newId, id);
  }

  lemma SendFindsUser(t: Tables, conversation: nat, content: string, list: seq<Attachment>, userId: nat, newId: nat)
    requires Next(t.messages, userId) && userId < newId
    ensures var t' := Sent(t, conversation, content, list, userId, newId);
      PreviousUser(t'.messages, conversation, newId) == Some(userId)
  {
    var t' := Sent(t, conversation, content, list, userId, newId);
    PreviousUserIs(t'.messages, conversation, newId);
    hide PreviousUser;
    assert IsUserBefore(t'.messages, conversation, newId, userId);
  }

  // ---------------------------------------------------- they are made of steps

  lemma ReplayKeepsLinked(t: Tables, conversation: nat, id: nat)
    requires Linked(t) && id in t.messages
    ensures Linked(Replayed(t, conversation, id))
  {
    var row := ResetRow(t.messages[id]);
    WriteKeeps(t, id, row);
    var w := Written(t, id, row);
    hide Linked;
    StepKeepsLinked(w, Step.Delete(Trailing(w.messages, conversation, id)));
  }

  lemma NothingIsValidated(stored: map<string, Stored>)
    ensures IsValidated(stored, [])
  {
  }

  lemma EditKeepsLinked(t: Tables, conversation: nat, id: nat, content: string, list: seq<Attachment>, newId: nat)
    requires Linked(t) && id in t.messages && IsValidated(t.stored, list)
    ensures Linked(Edited(t, conversation, id, content, list, newId))
  {
    var row := EditedRow(t.messages[id], content, list);
    WriteKeeps(t, id, row);
    var w := Written(t, id, row);
    var cut := w.(messages := CutAfter(w.messages, conversation, id));
    hide Linked, IsValidated;
    StepKeepsLinked(w, Step.Delete(Trailing(w.messages, conversation, id)));
    assert IsValidated(cut.stored, []) by { NothingIsValidated(cut.stored); }
    WriteKeeps(cut, newId, Placeholder(conversation));
  }

  /** What a message is shown with depends only on its row and on which uploads exist. */
  lemma SameShown(t: Tables, t': Tables, rows: seq<Link>, rows': seq<Link>, ids: set<nat>, ids': set<nat>, k: nat)
    requires Linked(t) && Linked(t') && k in t.messages && k in t'.messages && k in ids && k in ids'
    requires t'.messages[k].inlined == t.messages[k].inlined
    requires IsOrdered(rows, t.links, ids) && IsOrdered(rows', t'.links, ids')
    requires forall i :: 0 <= i < |t.messages[k].inlined| ==>
      (t.messages[k].inlined[i].id in t.stored <==> t.messages[k].inlined[i].id in t'.stored)
    ensures Hydrated(t', rows', k) == Hydrated(t, rows, k)
  {
    HydratesLastWritten(t, rows, ids, k);
    HydratesLastWritten(t', rows', ids', k);
    SameKept(t.stored, t'.stored, k, t.messages[k].inlined);
    hide Hydrated, KeptList;
  }

  lemma CleanUpShows(t: Tables, u: Tables, ids: set<string>, rows: seq<Link>, rows': seq<Link>,
                     wanted: set<nat>, k: nat)
    requires Linked(t) && Linked(u) && u.stored == t.stored
    requires k in t.messages && k in u.messages && u.messages[k] == t.messages[k] && k in wanted
    requires IsOrdered(rows, t.links, wanted) && IsOrdered(rows', CleanedUp(u, ids).links, wanted)
    ensures var t' := CleanedUp(u, ids);
      && Hydrated(t', rows', k) == Hydrated(t, rows, k)
      && (RowsOf(rows', k) != [] ==> forall a :: a in Hydrated(t', rows', k) ==> a.id in t'.stored)
  {
    var t' := CleanedUp(u, ids);
    CleanUpKeeps(u, ids);
    SameShown(t, t', rows, rows', wanted, wanted, k);
    RowsAreKept(t', rows', wanted, k);
    KeptByPosition(t'.stored, k, t'.messages[k].inlined);
    hide KeptLinks, RowsOf, Linked;
    var own := RowsOf(rows', k);
    assert forall i :: 0 <= i < |own| ==> own[i] in own && own[i].attachment in t'.stored;
  }

  lemma ValidatedIsKept(stored: map<string, Stored>, message: nat, list: seq<Attachment>)
    requires IsValidated(stored, list)
    ensures KeptList(stored, list) == list && KeptList(stored, []) == []
  {
    LinksForValidated(stored, message, list);
  }

  /** What was sent is shown: the user message with its list, the new one with nothing, and every
      earlier message as before. */
  lemma SendShows(t: Tables, conversation: nat, content: string, list: seq<Attachment>, userId: nat, newId: nat,
                  rows: seq<Link>, rows': seq<Link>, wanted: set<nat>)
    requires Linked(t) && IsValidated(t.stored, list) && Next(t.messages, userId) && userId < newId
    requires userId in wanted && newId in wanted
    requires IsOrdered(rows, t.links, wanted)
    requires IsOrdered(rows', Sent(t, conversation, content, list, userId, newId).links, wanted)
    ensures var t' := Sent(t, conversation, content, list, userId, newId);
      && userId in t'.messages && Hydrated(t', rows', userId) == list
      && newId in t'.messages && Hydrated(t', rows', newId) == []
      && forall k :: k in t.messages && k in wanted ==>
           k in t'.messages && Hydrated(t', rows', k) == Hydrated(t, rows, k)
  {
    var t' := Sent(t, conversation, content, list, userId, newId);
    SentRows(t, conversation, content, list, userId, newId);
    WriteKeeps(t, userId, Row(conversation, User, content, "", Completed, list));
    NothingIsValidated(t.stored);
    WriteKeeps(Written(t, userId, Row(conversation, User, content, "", Completed, list)), newId,
               Placeholder(conversation));
    assert Linked(t');
    hide Sent, Hydrated, Linked, IsValidated, IsOrdered;
    HydratesLastWritten(t', rows', wanted, userId);
    HydratesLastWritten(t', rows', wanted, newId);
    ValidatedIsKept(t.stored, userId, list);
    forall k | k in t.messages && k in wanted ensures Hydrated(t', rows', k) == Hydrated(t, rows, k) {
      SameShown(t, t', rows, rows', wanted, wanted, k);
    }
  }

  /** Replay and the clean-up behind it, of whatever list: every message of the past is shown
      with the attachments it had before, and what a message shows from its links is still
      stored. */
  lemma ReplayShowsPast(t: Tables, conversation: nat, id: nat, ids: set<string>,
                        rows: seq<Link>, rows': seq<Link>, wanted: set<nat>, k: nat)
    requires Linked(t) && Holds(t.messages, conversation, id) && IsPast(t.messages, conversation, id, k) && k in wanted
    requires IsOrdered(rows, t.links, wanted)
    requires IsOrdered(rows', CleanedUp(Replayed(t, conversation, id), ids).links, wanted)
    ensures var t' := CleanedUp(Replayed(t, conversation, id), ids);
      && k in t'.messages && Hydrated(t', rows', k) == Hydrated(t, rows, k)
      && (RowsOf(rows', k) != [] ==> forall a :: a in Hydrated(t', rows', k) ==> a.id in t'.stored)
  {
    ReplayKeepsPast(t, conversation, id);
    ReplayKeepsLinked(t, conversation, id);
    CleanUpShows(t, Replayed(t, conversation, id), ids, rows, rows', wanted, k);
  }

  lemma EditShowsPast(t: Tables, conversation: nat, id: nat, content: string, list: seq<Attachment>, newId: nat,
                      ids: set<string>, rows: seq<Link>, rows': seq<Link>, wanted: set<nat>, k: nat)
    requires Linked(t) && Holds(t.messages, conversation, id) && IsValidated(t.stored, list)
    requires Next(CutAfter(t.messages, conversation, id), newId)
    requires IsPast(t.messages, conversation, id, k) && k in wanted
    requires IsOrdered(rows, t.links, wanted)
    requires IsOrdered(rows', CleanedUp(Edited(t, conversation, id, content, list, newId), ids).links, wanted)
    ensures var t' := CleanedUp(Edited(t, conversation, id, content, list, newId), ids);
      && k in t'.messages && Hydrated(t', rows', k) == Hydrated(t, rows, k)
      && (RowsOf(rows', k) != [] ==> forall a :: a in Hydrated(t', rows', k) ==> a.id in t'.stored)
  {
    EditKeepsPast(t, conversation, id, content, list, newId);
    EditKeepsLinked(t, conversation, id, content, list, newId);
    CleanUpShows(t, Edited(t, conversation, id, content, list, newId), ids, rows, rows', wanted, k);
  }

  /** After an edit and any clean-up the edited message is shown with exactly its new list, all
      of it still stored, and the new assistant message with nothing. */
  lemma EditShowsTarget(t: Tables, conversation: nat, id: nat, content: string, list: seq<Attachment>, newId: nat,
                        ids: set<string>, rows: seq<Link>, wanted: set<nat>)
    requires Linked(t) && Holds(t.messages, conversation, id) && IsValidated(t.stored, list)
    requires Next(CutAfter(t.messages, conversation, id), newId) && id in wanted && newId in wanted
    requires IsOrdered(rows, CleanedUp(Edited(t, conversation, id, content, list, newId), ids).links, wanted)
    ensures var t' := CleanedUp(Edited(t, conversation, id, content, list, newId), ids);
      && id in t'.messages && Hydrated(t', rows, id) == list
      && (forall a :: a in list ==> a.id in t'.stored)
      && newId in t'.messages && Hydrated(t', rows, newId) == []
  {
    var u := Edited(t, conversation, id, content, list, newId);
    var t' := CleanedUp(u, ids);
    EditKeepsPast(t, conversation, id, content, list, newId);
    EditKeepsLinked(t, conversation, id, content, list, newId);
    hide Edited, Hydrated, CutAfter, Linked;
    CleanUpKeeps(u, ids);
    HydratesLastWritten(t', rows, wanted, id);
    HydratesLastWritten(t', rows, wanted, newId);
    LinksForValidated(t'.stored, id, list);
    LinksForValidated(t'.stored, newId, []);
  }

  /** A replayed message is shown with nothing. */
  lemma ReplayShowsTarget(t: Tables, conversation: nat, id: nat, ids: set<string>, rows: seq<Link>, wanted: set<nat>)
    requires Linked(t) && Holds(t.messages, conversation, id) && id in wanted
    requires IsOrdered(rows, CleanedUp(Replayed(t, conversation, id), ids).links, wanted)
    ensures var t' := CleanedUp(Replayed(t, conversation, id), ids);
      id in t'.messages && Hydrated(t', rows, id) == []
  {
    var u := Replayed(t, conversation, id);
    ReplayKeepsPast(t, conversation, id);
    ReplayKeepsLinked(t, conversation, id);
    hide Replayed, Hydrated, Linked;
    CleanUpKeeps(u, ids);
    HydratesLastWritten(CleanedUp(u, ids), rows, wanted, id);
    LinksForValidated(u.stored, id, []);
  }

  /** A clean-up after a replay can only take uploads whose links were all the target's: the
      messages that were dropped keep theirs stored through the links they leave behind. */
  lemma DroppedUploadsStay(t: Tables, conversation: nat, id: nat, ids: set<string>, upload: string)
    requires Holds(t.messages, conversation, id) && upload in t.stored
    ensures upload !in CleanedUp(Replayed(t, conversation, id), ids).stored <==>
      upload in ids && forall l :: l in t.links && l.attachment == upload ==> l.message == id
  {
    ReplayKeepsPast(t, conversation, id);
    hide Replayed;
    var t' := Replayed(t, conversation, id);
    if upload in ids && (forall l :: l in t.links && l.attachment == upload ==> l.message == id) {
      assert Unreferenced(t'.links, upload);
    }
  }

  lemma {:induction false} LinksForExactly(message: nat, list: seq<Attachment>)
    ensures forall l :: l in LinksFor(message, list) <==>
      0 <= l.position < |list| && l == Link(message, list[l.position].id, l.position) && l.attachment != ""
  {
    if list == [] {
    } else {
      LinksForExactly(message, list[..|list| - 1]);
    }
  }

  lemma LinksForHas(message: nat, list: seq<Attachment>, upload: string)
    requires upload != ""
    ensures (exists l :: l in LinksFor(message, list) && l.attachment == upload) <==> Has(list, upload)
  {
    LinksForExactly(message, list);
    hide LinksFor;
    if Has(list, upload) {
      var i :| 0 <= i < |list| && list[i].id == upload;
      assert Link(message, upload, i) in LinksFor(message, list);
    }
  }

  /** Behind an edit it takes exactly the listed uploads that the new text does not carry and
      whose links were all the edited message's, or those of a dropped one whose id the new
      message was given. */
  lemma EditTakesExactly(t: Tables, conversation: nat, id: nat, content: string, list: seq<Attachment>, newId: nat,
                         ids: set<string>, upload: string)
    requires Holds(t.messages, conversation, id) && upload in t.stored && upload != "" && newId != id
    ensures upload !in CleanedUp(Edited(t, conversation, id, content, list, newId), ids).stored <==>
      && upload in ids && !Has(list, upload)
      && forall l :: l in t.links && l.attachment == upload ==> l.message == id || l.message == newId
  {
    LinksForHas(id, list, upload);
    LinksForOnly(id, list);
    NoLinks(newId);
    hide LinksFor, Has, CutAfter;
    var t' := Edited(t, conversation, id, content, list, newId);
    assert forall l :: l in t'.links <==>
      (l in t.links && l.message != id && l.message != newId) || (l in LinksFor(id, list) && l.message != newId);
    hide Edited;
    if upload in ids && !Has(list, upload)
       && (forall l :: l in t.links && l.attachment == upload ==> l.message == id || l.message == newId) {
      assert Unreferenced(t'.links, upload);
    }
    if Has(list, upload) {
      var l :| l in LinksFor(id, list) && l.attachment == upload;
      assert l in t'.links;
    }
  }

  // ------------------------------------------------------------- it happens

  const PHOTO := Attachment("photo", Details("photo.png", "image/png", 1))

  /** A question, its answer, and a second question with a photo. */
  function TwoQuestions(): seq<Step> {
    [Write(1, Row(7, User, "q", "", Completed, []))]
    + [Write(2, Row(7, Assistant, "a", "", Completed, []))]
    + [Upload(PHOTO.id, Stored(1, PHOTO.details))]
    + [Write(3, Row(7, User, "r", "", Completed, [PHOTO]))]
  }

  lemma RanMore(steps: seq<Step>, s: Step)
    ensures Ran(steps + [s]) ==
      if Ran(steps).Some? && Enabled(Ran(steps).value, s) then Some(After(Ran(steps).value, s)) else None
  {
    assert (steps + [s])[..|steps|] == steps;
  }

  lemma TwoQuestionsRun()
    ensures Ran(TwoQuestions()).Some?
    ensures var t := Ran(TwoQuestions()).value;
      && t.messages == map[1 := Row(7, User, "q", "", Completed, []), 2 := Row(7, Assistant, "a", "", Completed, []),
                           3 := Row(7, User, "r", "", Completed, [PHOTO])]
      && t.links == {Link(3, PHOTO.id, 0)} && t.stored == map[PHOTO.id := Stored(1, PHOTO.details)]
  {
    var first := Write(1, Row(7, User, "q", "", Completed, []));
    var second := Write(2, Row(7, Assistant, "a", "", Completed, []));
    var third := Upload(PHOTO.id, Stored(1, PHOTO.details));
    RanMore([], first);
    assert [] + [first] == [first];
    RanMore([first], second);
    RanMore([first] + [second], third);
    RanMore([first] + [second] + [third], Write(3, Row(7, User, "r", "", Completed, [PHOTO])));
    assert [PHOTO][..0] == [];
    assert LinksFor(3, [PHOTO]) == [Link(3, PHOTO.id, 0)];
    hide Ran;
  }

  /** Links that stay behind keep an upload that no message lists: after the replay of the
      first answer drops the second question, the clean-up that is handed its photo leaves it
      stored. */
  lemma LeftOverLinkKeepsUpload()
    ensures Ran(TwoQuestions()).Some? && 2 in Ran(TwoQuestions()).value.messages
    ensures var t := Ran(TwoQuestions()).value;
      var t' := CleanedUp(Replayed(t, 7, 2), {PHOTO.id});
      && ReplayOutcome(t, 7, 2, [Completed]) == Applied
      && (forall m :: m in t'.messages ==> !Has(t'.messages[m].inlined, PHOTO.id))
      && PHOTO.id in t'.stored
  {
    TwoQuestionsRun();
    hide Ran;
    var t := Ran(TwoQuestions()).value;
    assert Link(3, PHOTO.id, 0) in t.links;
    DroppedUploadsStay(t, 7, 2, {PHOTO.id}, PHOTO.id);
    ReplayKeepsPast(t, 7, 2);
    hide Replayed, CleanedUp;
  }

  /** An upload that a bulk deletion took is still shown, from the list in the row. */
  lemma PurgedUploadIsShown()
    ensures var steps := TwoQuestions() + [Purge({PHOTO.id})];
      && Ran(steps).Some?
      && (var t := Ran(steps).value;
          && PHOTO.id !in t.stored && 3 in t.messages
          && IsOrdered([], t.links, {3}) && Hydrated(t, [], 3) == [PHOTO])
  {
    TwoQuestionsRun();
    RanMore(TwoQuestions(), Purge({PHOTO.id}));
    hide Ran;
  }
}
