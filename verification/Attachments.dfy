/** Messages and the files attached to them, which are stored twice: as link rows with a
    position, and as a list inside the message row
    (backend/internal/chat/message_attachments.go, backend/internal/attachment/service.go).

    Foreign keys are not enforced, so deleting a message leaves its link rows behind. */
module Attachments {
  import opened Text
  import opened Words
  import opened Events

  datatype Details = Details(name: string, mimeType: string, size: nat)

  /** What a message carries; the download path follows from the id. */
  datatype Attachment = Attachment(id: string, details: Details)

  datatype Stored = Stored(owner: nat, details: Details)

  datatype Link = Link(message: nat, attachment: string, position: nat)

  datatype Role = User | Assistant

  /** `inlined` is the list in the message row itself. */
  datatype Row = Row(conversation: nat, role: Role, content: string, reasoning: string, status: Status,
                     inlined: seq<Attachment>)

  datatype Tables = Tables(messages: map<nat, Row>, links: set<Link>, stored: map<string, Stored>)

  // ------------------------------------------------------------- reading

  function ToAttachment(stored: map<string, Stored>, id: string): Attachment {
    if id in stored then Attachment(id, stored[id].details) else Attachment("", Details("", "", 0))
  }

  /** The link rows of the given messages, as the query orders them. */
  ghost predicate IsOrdered(rows: seq<Link>, links: set<Link>, ids: set<nat>) {
    && (forall l :: l in rows <==> l in links && l.message in ids)
    && (forall i, j :: 0 <= i < j < |rows| ==> rows[i] != rows[j])
    && (forall i, j :: 0 <= i < j < |rows| ==> rows[i].message <= rows[j].message)
    && (forall i, j :: 0 <= i < j < |rows| && rows[i].message == rows[j].message ==>
          rows[i].position <= rows[j].position)
  }

  function RowsOf(rows: seq<Link>, message: nat): seq<Link> {
    if rows == [] then []
    else
      var rest, last := RowsOf(rows[..|rows| - 1], message), rows[|rows| - 1];
      if last.message == message then rest + [last] else rest
  }

  function Shown(stored: map<string, Stored>, rows: seq<Link>): (list: seq<Attachment>)
    ensures |list| == |rows| && forall i :: 0 <= i < |rows| ==> list[i] == ToAttachment(stored, rows[i].attachment)
  {
    seq(|rows|, i requires 0 <= i < |rows| => ToAttachment(stored, rows[i].attachment))
  }

  /** The attachments a message is shown with: those of its links, or the inlined list if
      it has none. */
  function Hydrated(t: Tables, rows: seq<Link>, message: nat): seq<Attachment>
    requires message in t.messages
  {
    var own := RowsOf(rows, message);
    if own != [] then Shown(t.stored, own) else t.messages[message].inlined
  }

  /** The two loops of `hydrateMessageAttachments`: the rows grouped by message, then one
      list for each message. */
  method HydrateMessageAttachments(t: Tables, ids: seq<nat>, rows: seq<Link>) returns (lists: seq<seq<Attachment>>)
    requires forall i :: 0 <= i < |ids| ==> ids[i] in t.messages
    ensures |lists| == |ids|
    ensures forall i :: 0 <= i < |ids| ==> lists[i] == Hydrated(t, rows, ids[i])
  {
    var byMessage: map<nat, seq<Attachment>> := map[];
    for k := 0 to |rows|
      invariant forall m :: m in byMessage <==> RowsOf(rows[..k], m) != []
      invariant forall m :: m in byMessage ==> byMessage[m] == Shown(t.stored, RowsOf(rows[..k], m))
    {
      var link := rows[k];
      assert rows[..k + 1][..k] == rows[..k];
      ghost var before := RowsOf(rows[..k], link.message);
      var sofar := if link.message in byMessage then byMessage[link.message] else [];
      assert sofar == Shown(t.stored, before);
      byMessage := byMessage[link.message := sofar + [ToAttachment(t.stored, link.attachment)]];
      assert RowsOf(rows[..k + 1], link.message) == before + [link];
    }
    assert rows[..|rows|] == rows;
    lists := [];
    for i := 0 to |ids|
      invariant |lists| == i
      invariant forall j :: 0 <= j < i ==> lists[j] == Hydrated(t, rows, ids[j])
    {
      if ids[i] in byMessage {
        lists := lists + [byMessage[ids[i]]];
      } else {
        lists := lists + [t.messages[ids[i]].inlined];
      }
    }
  }

  // ------------------------------------------------------------- writing

  /** The link rows for a list; an entry without an id gets none. */
  function LinksFor(message: nat, list: seq<Attachment>): seq<Link> {
    if list == [] then []
    else
      var n := |list| - 1;
      LinksFor(message, list[..n]) + (if list[n].id == "" then [] else [Link(message, list[n].id, n)])
  }

  function LinksReplaced(links: set<Link>, message: nat, list: seq<Attachment>): set<Link> {
    (set l | l in links && l.message != message) + (set l | l in LinksFor(message, list))
  }

  predicate Has(list: seq<Attachment>, id: string) {
    exists i :: 0 <= i < |list| && list[i].id == id
  }

  lemma HasMore(list: seq<Attachment>, a: Attachment)
    ensures forall id :: Has(list + [a], id) <==> Has(list, id) || id == a.id
  {
    forall id | Has(list, id) || id == a.id ensures Has(list + [a], id) {
      if Has(list, id) {
        var i :| 0 <= i < |list| && list[i].id == id;
        assert (list + [a])[i].id == id;
      } else {
        assert (list + [a])[|list|].id == id;
      }
    }
  }

  /** A list that names an upload twice: the two link rows would have the same primary key. */
  predicate Repeats(list: seq<Attachment>) {
    exists i, j :: 0 <= i < j < |list| && list[i].id == list[j].id != ""
  }

  lemma RepeatsMore(list: seq<Attachment>, a: Attachment)
    ensures Repeats(list + [a]) <==> Repeats(list) || (a.id != "" && Has(list, a.id))
  {
    var more := list + [a];
    if Repeats(list) {
      var i, j :| 0 <= i < j < |list| && list[i].id == list[j].id != "";
      assert more[i].id == more[j].id != "";
    } else if a.id != "" && Has(list, a.id) {
      var i :| 0 <= i < |list| && list[i].id == a.id;
      assert more[i].id == more[|list|].id != "";
    }
  }

  /** `None` is the insert that the primary key refuses. */
  method ReplaceMessageAttachmentLinks(links: set<Link>, message: nat, list: seq<Attachment>)
      returns (r: Option<set<Link>>)
    ensures r == if Repeats(list) then None else Some(LinksReplaced(links, message, list))
  {
    var kept := set l | l in links && l.message != message;
    var rows: seq<Link> := [];
    var keys: set<string> := {};
    var refused := false;
    for index := 0 to |list|
      invariant rows == LinksFor(message, list[..index])
      invariant forall id :: id in keys <==> id != "" && Has(list[..index], id)
      invariant refused <==> Repeats(list[..index])
    {
      var id := list[index].id;
      assert list[..index + 1] == list[..index] + [list[index]];
      HasMore(list[..index], list[index]);
      RepeatsMore(list[..index], list[index]);
      hide Has, Repeats;
      if id == "" {
        continue;
      }
      refused := refused || id in keys;
      keys := keys + {id};
      rows := rows + [Link(message, id, index)];
    }
    assert list[..|list|] == list;
    if refused {
      return None;
    }
    return Some(kept + set l | l in rows);
  }

  /** `createMessageRecord` and `updateMessageRecord`, if they succeed: the row with the list
      in it, and the links. */
  function Written(t: Tables, message: nat, row: Row): Tables {
    t.(messages := t.messages[message := row], links := LinksReplaced(t.links, message, row.inlined))
  }

  // ---------------------------------------------------------- validating

  ghost predicate NoRepeats(list: seq<Attachment>) {
    forall i, j :: 0 <= i < j < |list| ==> list[i].id != list[j].id
  }

  /** A list as `ValidateForUser` returns it. */
  ghost predicate IsValidated(stored: map<string, Stored>, list: seq<Attachment>) {
    && NoRepeats(list)
    && forall i :: 0 <= i < |list| ==>
         list[i].id != "" && list[i].id in stored && list[i].details == stored[list[i].id].details
  }

  /** The loop of `ValidateForUser`; `None` is one of its errors. */
  function Validated(stored: map<string, Stored>, user: nat, given: seq<string>): Option<seq<Attachment>> {
    if given == [] then Some([])
    else
      var before := Validated(stored, user, given[..|given| - 1]);
      var id := TrimSpace(given[|given| - 1]);
      if before == None || id == "" then None
      else if Has(before.value, id) then before
      else if id in stored && stored[id].owner == user then Some(before.value + [ToAttachment(stored, id)])
      else None
  }

  lemma {:induction false} ValidationStops(stored: map<string, Stored>, user: nat, given: seq<string>, k: nat)
    requires k <= |given| && Validated(stored, user, given[..k]) == None
    ensures Validated(stored, user, given) == None
    decreases |given|
  {
    hide TrimSpace;
    if k == |given| {
      assert given[..k] == given;
    } else {
      var n := |given| - 1;
      assert given[..n][..k] == given[..k];
      ValidationStops(stored, user, given[..n], k);
    }
  }

  method ValidateForUser(stored: map<string, Stored>, user: nat, most: nat, given: seq<string>)
      returns (r: Option<seq<Attachment>>)
    ensures r == if |given| > most then None else Validated(stored, user, given)
  {
    if |given| > most {
      return None;
    }
    hide TrimSpace;
    var normalized: seq<Attachment> := [];
    var seen: set<string> := {};
    for k := 0 to |given|
      invariant Validated(stored, user, given[..k]) == Some(normalized)
      invariant forall id :: id in seen <==> Has(normalized, id)
    {
      assert given[..k + 1][..k] == given[..k];
      var id := TrimSpace(given[k]);
      if id == "" {
        ValidationStops(stored, user, given, k + 1);
        return None;
      }
      if id in seen {
        continue;
      }
      if !(id in stored && stored[id].owner == user) {
        ValidationStops(stored, user, given, k + 1);
        return None;
      }
      HasMore(normalized, ToAttachment(stored, id));
      normalized := normalized + [ToAttachment(stored, id)];
      seen := seen + {id};
    }
    assert given[..|given|] == given;
    return Some(normalized);
  }

  ghost predicate Owns(stored: map<string, Stored>, user: nat, id: string) {
    id in stored && stored[id].owner == user
  }

  /** Validation succeeds exactly if every id, trimmed, is an upload of the user. */
  lemma {:induction false} ValidatedWhen(stored: map<string, Stored>, user: nat, given: seq<string>)
    requires "" !in stored
    ensures Validated(stored, user, given).Some? <==>
      forall i :: 0 <= i < |given| ==> Owns(stored, user, TrimSpace(given[i]))
    ensures Validated(stored, user, given).Some? ==>
      forall id :: Has(Validated(stored, user, given).value, id) ==> Owns(stored, user, id)
  {
    hide TrimSpace;
    if given == [] {
    } else {
      var n := |given| - 1;
      ValidatedWhen(stored, user, given[..n]);
      assert forall i :: 0 <= i < n ==> given[..n][i] == given[i];
      var before, id := Validated(stored, user, given[..n]), TrimSpace(given[n]);
      if before.Some? && Owns(stored, user, id) {
        HasMore(before.value, ToAttachment(stored, id));
      }
      hide Has;
    }
  }

  predicate Names(given: seq<string>, id: string) {
    exists i :: 0 <= i < |given| && TrimSpace(given[i]) == id
  }

  lemma NamesMore(given: seq<string>)
    requires given != []
    ensures var n := |given| - 1;
      forall id :: Names(given, id) <==> Names(given[..n], id) || id == TrimSpace(given[n])
  {
    hide TrimSpace;
    var n := |given| - 1;
    assert TrimSpace(given[n]) == TrimSpace(given[n]);
    forall id | Names(given[..n], id) ensures Names(given, id) {
      var i :| 0 <= i < n && TrimSpace(given[..n][i]) == id;
      assert TrimSpace(given[i]) == id;
    }
    forall id | Names(given, id) ensures Names(given[..n], id) || id == TrimSpace(given[n]) {
      var i :| 0 <= i < |given| && TrimSpace(given[i]) == id;
      assert i < n ==> TrimSpace(given[..n][i]) == id;
    }
  }

  lemma ValidatedMore(stored: map<string, Stored>, list: seq<Attachment>, id: string)
    requires IsValidated(stored, list) && id != "" && id in stored && !Has(list, id)
    ensures IsValidated(stored, list + [ToAttachment(stored, id)])
  {
    assert forall i :: 0 <= i < |list| ==> list[i].id != id;
  }

  /** What it returns has no repetitions, names what was given, and carries what is stored. */
  lemma {:induction false} ValidatedExactly(stored: map<string, Stored>, user: nat, given: seq<string>)
    requires Validated(stored, user, given).Some?
    ensures var list := Validated(stored, user, given).value;
      IsValidated(stored, list) && forall id :: Has(list, id) <==> Names(given, id)
  {
    if given == [] {
    } else {
      var n := |given| - 1;
      ValidatedExactly(stored, user, given[..n]);
      NamesMore(given);
      hide TrimSpace, Names;
      var before, id := Validated(stored, user, given[..n]).value, TrimSpace(given[n]);
      if !Has(before, id) {
        HasMore(before, ToAttachment(stored, id));
        ValidatedMore(stored, before, id);
      }
      hide Has, IsValidated;
    }
  }

  lemma NamedAt(given: seq<string>, q: nat)
    requires q < |given|
    ensures Names(given, TrimSpace(given[q]))
  {
    hide TrimSpace;
  }

  /** And in the order in which the ids were given first. */
  lemma {:induction false} ValidatedInOrder(stored: map<string, Stored>, user: nat, given: seq<string>)
    requires Validated(stored, user, given).Some?
    ensures var list := Validated(stored, user, given).value;
      forall i, j, q :: 0 <= i < j < |list| && 0 <= q < |given| && TrimSpace(given[q]) == list[j].id ==>
        Names(given[..q], list[i].id)
  {
    hide TrimSpace;
    if given == [] {
    } else {
      var n := |given| - 1;
      var before, list := Validated(stored, user, given[..n]).value, Validated(stored, user, given).value;
      ValidatedInOrder(stored, user, given[..n]);
      ValidatedExactly(stored, user, given[..n]);
      hide Names, IsValidated;
      forall i, j, q | 0 <= i < j < |list| && 0 <= q <= n && TrimSpace(given[q]) == list[j].id
        ensures Names(given[..q], list[i].id)
      {
        assert list[i] == before[i] && Has(before, list[i].id);
        if q < n {
          assert given[..n][q] == given[q] && given[..n][..q] == given[..q];
          NamedAt(given[..n], q);
          assert Has(before, list[j].id);
          assert j < |before|;
        }
      }
    }
  }

  /** Validated lists are never refused. */
  lemma ValidatedDoesNotRepeat(stored: map<string, Stored>, list: seq<Attachment>)
    requires IsValidated(stored, list)
    ensures !Repeats(list)
  {
  }
}
