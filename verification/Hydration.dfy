/** Whatever is sent, edited, deleted and cleaned up: a message is shown with the attachments
    it was last written with. */
module Hydration {
  import opened Text
  import opened Events
  import opened Attachments

  // ------------------------------------------------------------ invariant

  /** The link rows that a message written with `list` has while the uploads in `stored`
      exist. */
  function KeptLinks(stored: map<string, Stored>, message: nat, list: seq<Attachment>): seq<Link> {
    if list == [] then []
    else
      var n := |list| - 1;
      KeptLinks(stored, message, list[..n]) + (if list[n].id in stored then [Link(message, list[n].id, n)] else [])
  }

  function KeptList(stored: map<string, Stored>, list: seq<Attachment>): seq<Attachment> {
    if list == [] then []
    else
      var n := |list| - 1;
      KeptList(stored, list[..n]) + (if list[n].id in stored then [list[n]] else [])
  }

  ghost predicate Described(stored: map<string, Stored>, list: seq<Attachment>) {
    && NoRepeats(list)
    && forall i :: 0 <= i < |list| ==>
         list[i].id != "" && (list[i].id in stored ==> list[i].details == stored[list[i].id].details)
  }

  ghost predicate LinksAre(t: Tables, message: nat, list: seq<Attachment>) {
    forall l: Link :: l.message == message ==> (l in t.links <==> l in KeptLinks(t.stored, message, list))
  }

  ghost predicate Linked(t: Tables) {
    && "" !in t.stored
    && forall m :: m in t.messages ==>
         Described(t.stored, t.messages[m].inlined) && LinksAre(t, m, t.messages[m].inlined)
  }

  // ---------------------------------------------------------------- steps

  /** The effects that requests are made of.  `Delete` takes message rows away, their links
      stay; `CleanUp` removes what no link names; `Purge` is the bulk deletion of uploads,
      links included. */
  datatype Step =
    | Upload(id: string, record: Stored)
    | Write(message: nat, row: Row)
    | Delete(gone: set<nat>)
    | Finalize(message: nat, content: string, reasoning: string, status: Status)
    | CleanUp(ids: set<string>)
    | Purge(ids: set<string>)

  ghost predicate Unreferenced(links: set<Link>, id: string) {
    forall l :: l in links ==> l.attachment != id
  }

  ghost function CleanedUp(t: Tables, ids: set<string>): Tables {
    t.(stored := map id | id in t.stored && !(id in ids && Unreferenced(t.links, id)) :: t.stored[id])
  }

  /** New uploads get ids that were never used; messages are written with validated lists. */
  ghost predicate Enabled(t: Tables, s: Step) {
    match s
    case Upload(id, record) =>
      && id != "" && id !in t.stored && Unreferenced(t.links, id)
      && forall m :: m in t.messages ==> !Has(t.messages[m].inlined, id)
    case Write(message, row) => IsValidated(t.stored, row.inlined)
    case Finalize(message, content, reasoning, status) => message in t.messages
    case _ => true
  }

  ghost function After(t: Tables, s: Step): Tables {
    match s
    case Upload(id, record) => t.(stored := t.stored[id := record])
    case Write(message, row) => Written(t, message, row)
    case Delete(gone) => t.(messages := t.messages - gone)
    case Finalize(message, content, reasoning, status) =>
      if message !in t.messages then t
      else
        var row := t.messages[message].(content := content, reasoning := reasoning, status := status);
        t.(messages := t.messages[message := row])
    case CleanUp(ids) => CleanedUp(t, ids)
    case Purge(ids) => t.(links := (set l | l in t.links && l.attachment !in ids), stored := t.stored - ids)
  }

  ghost function Ran(steps: seq<Step>): Option<Tables> {
    if steps == [] then Some(Tables(map[], {}, map[]))
    else
      var before := Ran(steps[..|steps| - 1]);
      if before.Some? && Enabled(before.value, steps[|steps| - 1])
      then Some(After(before.value, steps[|steps| - 1])) else None
  }

  // ----------------------------------------------------------- kept links

  lemma {:induction false} KeptByPosition(stored: map<string, Stored>, message: nat, list: seq<Attachment>)
    ensures forall l :: l in KeptLinks(stored, message, list) <==>
      0 <= l.position < |list| && l == Link(message, list[l.position].id, l.position) && l.attachment in stored
  {
    if list == [] {
    } else {
      KeptByPosition(stored, message, list[..|list| - 1]);
    }
  }

  /** All links, if all uploads exist. */
  lemma {:induction false} LinksForValidated(stored: map<string, Stored>, message: nat, list: seq<Attachment>)
    requires forall i :: 0 <= i < |list| ==> list[i].id != "" && list[i].id in stored
    ensures LinksFor(message, list) == KeptLinks(stored, message, list)
    ensures KeptList(stored, list) == list
  {
    if list == [] {
    } else {
      var n := |list| - 1;
      LinksForValidated(stored, message, list[..n]);
      assert list == list[..n] + [list[n]];
    }
  }

  lemma {:induction false} SameKept(a: map<string, Stored>, b: map<string, Stored>, message: nat, list: seq<Attachment>)
    requires forall i :: 0 <= i < |list| ==> (list[i].id in a <==> list[i].id in b)
    ensures KeptLinks(a, message, list) == KeptLinks(b, message, list)
    ensures KeptList(a, list) == KeptList(b, list)
  {
    if list == [] {
    } else {
      SameKept(a, b, message, list[..|list| - 1]);
    }
  }

  // ---------------------------------------------------- every step keeps it

  lemma OtherMessage(t: Tables, t': Tables, m: nat, list: seq<Attachment>)
    requires LinksAre(t, m, list) && Described(t.stored, list)
    requires t'.stored == t.stored
    requires forall l: Link :: l.message == m ==> (l in t'.links <==> l in t.links)
    ensures LinksAre(t', m, list) && Described(t'.stored, list)
  {
  }

  lemma WriteKeeps(t: Tables, message: nat, row: Row)
    requires Linked(t) && IsValidated(t.stored, row.inlined)
    ensures Linked(Written(t, message, row))
  {
    var t' := Written(t, message, row);
    LinksForValidated(t.stored, message, row.inlined);
    KeptByPosition(t.stored, message, row.inlined);
    hide LinksFor, KeptLinks, NoRepeats;
    forall m | m in t'.messages
      ensures Described(t'.stored, t'.messages[m].inlined) && LinksAre(t', m, t'.messages[m].inlined)
    {
      if m != message {
        OtherMessage(t, t', m, t.messages[m].inlined);
      }
    }
  }

  /** Uploads that come or go without being listed in, or linked by, a message. */
  lemma OtherUploads(t: Tables, t': Tables, m: nat, list: seq<Attachment>)
    requires LinksAre(t, m, list) && Described(t.stored, list)
    requires t'.links == t.links
    requires forall i :: 0 <= i < |list| ==> (list[i].id in t.stored <==> list[i].id in t'.stored)
    requires forall id :: id in t.stored && id in t'.stored ==> t'.stored[id] == t.stored[id]
    ensures LinksAre(t', m, list) && Described(t'.stored, list)
  {
    SameKept(t.stored, t'.stored, m, list);
    hide KeptLinks;
  }

  lemma UploadKeeps(t: Tables, id: string, record: Stored)
    requires Linked(t) && Enabled(t, Upload(id, record))
    ensures Linked(After(t, Upload(id, record)))
  {
    var t' := After(t, Upload(id, record));
    forall m | m in t'.messages
      ensures Described(t'.stored, t'.messages[m].inlined) && LinksAre(t', m, t'.messages[m].inlined)
    {
      var list := t.messages[m].inlined;
      assert !Has(list, id);
      hide LinksAre, Described;
      OtherUploads(t, t', m, list);
    }
  }

  /** What an existing message lists, and is stored, is linked, so no clean-up takes it. */
  lemma ListedIsReferenced(t: Tables, m: nat, i: nat)
    requires Linked(t) && m in t.messages && i < |t.messages[m].inlined|
    requires t.messages[m].inlined[i].id in t.stored
    ensures !Unreferenced(t.links, t.messages[m].inlined[i].id)
  {
    var list := t.messages[m].inlined;
    KeptByPosition(t.stored, m, list);
    hide KeptLinks;
    assert LinksAre(t, m, list);
    assert Link(m, list[i].id, i) in t.links;
  }

  lemma CleanUpKeeps(t: Tables, ids: set<string>)
    requires Linked(t)
    ensures Linked(CleanedUp(t, ids))
    ensures forall m, i :: m in t.messages && 0 <= i < |t.messages[m].inlined| ==>
      (t.messages[m].inlined[i].id in t.stored <==> t.messages[m].inlined[i].id in CleanedUp(t, ids).stored)
  {
    hide Unreferenced, LinksAre, Described;
    var t' := CleanedUp(t, ids);
    forall m, i | m in t.messages && 0 <= i < |t.messages[m].inlined|
      ensures t.messages[m].inlined[i].id in t.stored <==> t.messages[m].inlined[i].id in t'.stored
    {
      if t.messages[m].inlined[i].id in t.stored {
        ListedIsReferenced(t, m, i);
      }
    }
    forall m | m in t'.messages
      ensures Described(t'.stored, t'.messages[m].inlined) && LinksAre(t', m, t'.messages[m].inlined)
    {
      OtherUploads(t, t', m, t.messages[m].inlined);
    }
  }

  lemma PurgeKeeps(t: Tables, ids: set<string>)
    requires Linked(t)
    ensures Linked(After(t, Purge(ids)))
  {
    var t' := After(t, Purge(ids));
    forall m | m in t'.messages
      ensures Described(t'.stored, t'.messages[m].inlined) && LinksAre(t', m, t'.messages[m].inlined)
    {
      var list := t.messages[m].inlined;
      assert LinksAre(t, m, list) && Described(t.stored, list);
      hide NoRepeats;
      KeptByPosition(t.stored, m, list);
      KeptByPosition(t'.stored, m, list);
      hide KeptLinks;
    }
  }

  lemma QuietKeeps(t: Tables, s: Step)
    requires Linked(t) && Enabled(t, s) && (s.Delete? || s.Finalize?)
    ensures Linked(After(t, s))
  {
    var t' := After(t, s);
    forall m | m in t'.messages
      ensures Described(t'.stored, t'.messages[m].inlined) && LinksAre(t', m, t'.messages[m].inlined)
    {
      OtherMessage(t, t', m, t.messages[m].inlined);
    }
  }

  /** The end of a run writes the text and the status of one message, and nothing else. */
  lemma FinalizeStores(t: Tables, message: nat, content: string, reasoning: string, status: Status)
    requires message in t.messages
    ensures var t', before := After(t, Finalize(message, content, reasoning, status)), t.messages[message];
      && t'.links == t.links && t'.stored == t.stored && t'.messages.Keys == t.messages.Keys
      && t'.messages[message] == Row(before.conversation, before.role, content, reasoning, status, before.inlined)
      && forall m :: m in t.messages && m != message ==> t'.messages[m] == t.messages[m]
  {
  }

  lemma StepKeepsLinked(t: Tables, s: Step)
    requires Linked(t) && Enabled(t, s)
    ensures Linked(After(t, s))
  {
    hide Linked;
    match s
    case Upload(id, record) => UploadKeeps(t, id, record);
    case Write(message, row) => WriteKeeps(t, message, row);
    case CleanUp(ids) => CleanUpKeeps(t, ids);
    case Purge(ids) => PurgeKeeps(t, ids);
    case _ => QuietKeeps(t, s);
  }

  lemma {:induction false} RunKeepsLinked(steps: seq<Step>)
    requires Ran(steps).Some?
    ensures Linked(Ran(steps).value)
  {
    if steps != [] {
      hide Linked, Enabled, After;
      RunKeepsLinked(steps[..|steps| - 1]);
      StepKeepsLinked(Ran(steps[..|steps| - 1]).value, steps[|steps| - 1]);
    } else {
      assert Linked(Tables(map[], {}, map[]));
    }
  }

  // --------------------------------------------------------- what is shown

  ghost predicate Rising(rows: seq<Link>) {
    forall i, j :: 0 <= i < j < |rows| ==> rows[i].position < rows[j].position
  }

  lemma LastIsHighest(rows: seq<Link>, l: Link)
    requires Rising(rows) && l in rows
    ensures var last := rows[|rows| - 1];
      l.position <= last.position && (l.position == last.position ==> l == last)
  {
  }

  lemma NotLast(rows: seq<Link>)
    requires Rising(rows) && rows != []
    ensures var n := |rows| - 1;
      Rising(rows[..n]) && forall l :: l in rows[..n] <==> l in rows && l != rows[n]
  {
    assert rows == rows[..|rows| - 1] + [rows[|rows| - 1]];
  }

  /** Two lists in rising order with the same elements are the same. */
  lemma {:induction false} SameRising(a: seq<Link>, b: seq<Link>)
    requires Rising(a) && Rising(b) && forall l :: l in a <==> l in b
    ensures a == b
    decreases |a| + |b|
  {
    if b != [] {
      assert b[|b| - 1] in b;
    }
    if a == [] {
    } else {
      assert a[|a| - 1] in a;
      var x, y := a[|a| - 1], b[|b| - 1];
      LastIsHighest(a, y);
      LastIsHighest(b, x);
      NotLast(a);
      NotLast(b);
      hide Rising;
      assert a == a[..|a| - 1] + [x] && b == b[..|b| - 1] + [y];
      SameRising(a[..|a| - 1], b[..|b| - 1]);
    }
  }

  lemma {:induction false} KeptIsRising(stored: map<string, Stored>, message: nat, list: seq<Attachment>)
    ensures Rising(KeptLinks(stored, message, list))
  {
    if list == [] {
    } else {
      KeptIsRising(stored, message, list[..|list| - 1]);
      KeptByPosition(stored, message, list[..|list| - 1]);
    }
  }

  ghost predicate InOrder(rows: seq<Link>) {
    && (forall i, j :: 0 <= i < j < |rows| ==> rows[i] != rows[j])
    && (forall i, j :: 0 <= i < j < |rows| && rows[i].message == rows[j].message ==>
          rows[i].position <= rows[j].position)
  }

  ghost predicate Behind(rows: seq<Link>, last: Link) {
    forall l :: l in rows ==> l != last && (l.message == last.message ==> l.position <= last.position)
  }

  lemma InOrderPrefix(rows: seq<Link>)
    requires InOrder(rows) && rows != []
    ensures var n := |rows| - 1; InOrder(rows[..n]) && Behind(rows[..n], rows[n])
  {
  }

  lemma InOrderMore(rows: seq<Link>, last: Link)
    requires InOrder(rows)
    ensures Behind(rows, last) ==> InOrder(rows + [last])
  {
    assert forall i :: 0 <= i < |rows| ==> rows[i] in rows;
  }

  lemma {:induction false} RowsOfInOrder(rows: seq<Link>, message: nat)
    requires InOrder(rows)
    ensures InOrder(RowsOf(rows, message))
    ensures forall l :: l in RowsOf(rows, message) <==> l in rows && l.message == message
  {
    if rows == [] {
    } else {
      var n := |rows| - 1;
      InOrderPrefix(rows);
      RowsOfInOrder(rows[..n], message);
      InOrderMore(RowsOf(rows[..n], message), rows[n]);
      hide InOrder;
      assert rows == rows[..n] + [rows[n]];
    }
  }

  lemma {:induction false} ShownKept(stored: map<string, Stored>, message: nat, list: seq<Attachment>)
    requires Described(stored, list)
    ensures Shown(stored, KeptLinks(stored, message, list)) == KeptList(stored, list)
  {
    if list == [] {
    } else {
      var n := |list| - 1;
      ShownKept(stored, message, list[..n]);
    }
  }

  /** A message's rows, in whatever admissible order the query returns them, are its kept
      links in the order of its list. */
  lemma RowsAreKept(t: Tables, rows: seq<Link>, ids: set<nat>, m: nat)
    requires Linked(t) && m in t.messages && m in ids && IsOrdered(rows, t.links, ids)
    ensures RowsOf(rows, m) == KeptLinks(t.stored, m, t.messages[m].inlined)
  {
    var list := t.messages[m].inlined;
    var own, kept := RowsOf(rows, m), KeptLinks(t.stored, m, list);
    assert LinksAre(t, m, list);
    RowsOfInOrder(rows, m);
    KeptByPosition(t.stored, m, list);
    KeptIsRising(t.stored, m, list);
    hide RowsOf, KeptLinks;
    assert forall l :: l in own <==> l in kept;
    assert Rising(own) by {
      forall i, j | 0 <= i < j < |own| ensures own[i].position < own[j].position {
        assert own[i] in kept && own[j] in kept;
      }
    }
    SameRising(own, kept);
  }

  /** A message is shown with what it was last written with, less the uploads that a bulk
      deletion took away; if that is all of them, the list in its row is shown. */
  lemma HydratesLastWritten(t: Tables, rows: seq<Link>, ids: set<nat>, m: nat)
    requires Linked(t) && m in t.messages && m in ids && IsOrdered(rows, t.links, ids)
    ensures var list := t.messages[m].inlined;
      Hydrated(t, rows, m) == if KeptList(t.stored, list) != [] then KeptList(t.stored, list) else list
  {
    var list := t.messages[m].inlined;
    RowsAreKept(t, rows, ids, m);
    assert Described(t.stored, list);
    ShownKept(t.stored, m, list);
    hide KeptLinks, RowsOf;
  }

  ghost predicate AnyStored(stored: map<string, Stored>, list: seq<Attachment>) {
    exists i :: 0 <= i < |list| && list[i].id in stored
  }

  lemma AnyStoredMore(stored: map<string, Stored>, list: seq<Attachment>, a: Attachment)
    ensures AnyStored(stored, list + [a]) <==> AnyStored(stored, list) || a.id in stored
  {
    var more := list + [a];
    if i :| 0 <= i < |list| && list[i].id in stored {
      assert more[i].id in stored;
    }
    if a.id in stored {
      assert more[|list|].id in stored;
    }
  }

  lemma {:induction false} KeptIsStored(stored: map<string, Stored>, list: seq<Attachment>)
    ensures forall a :: a in KeptList(stored, list) ==> a.id in stored
    ensures KeptList(stored, list) == [] <==> !AnyStored(stored, list)
  {
    if list == [] {
    } else {
      var n := |list| - 1;
      KeptIsStored(stored, list[..n]);
      AnyStoredMore(stored, list[..n], list[n]);
      hide AnyStored;
      assert list == list[..n] + [list[n]];
    }
  }

  ghost predicate AllKept(stored: map<string, Stored>, list: seq<Attachment>) {
    forall i :: 0 <= i < |list| ==> list[i].id in stored
  }

  lemma AllKeptMore(stored: map<string, Stored>, list: seq<Attachment>, a: Attachment)
    ensures AllKept(stored, list + [a]) <==> AllKept(stored, list) && a.id in stored
  {
    var more := list + [a];
    assert more[|list|] == a && forall i :: 0 <= i < |list| ==> more[i] == list[i];
  }

  lemma {:induction false} KeptIsAll(stored: map<string, Stored>, list: seq<Attachment>)
    ensures |KeptList(stored, list)| <= |list|
    ensures KeptList(stored, list) == list <==> AllKept(stored, list)
  {
    if list == [] {
    } else {
      var n := |list| - 1;
      var before, last := list[..n], list[n];
      KeptIsAll(stored, before);
      AllKeptMore(stored, before, last);
      assert list == before + [last];
      hide AllKept;
    }
  }

  /** Everything shown is still stored exactly if the message was written without attachments
      or one of them is left; and the whole list is shown exactly if all or none are left. */
  lemma ShownIsStoredExactly(t: Tables, rows: seq<Link>, ids: set<nat>, m: nat)
    requires Linked(t) && m in t.messages && m in ids && IsOrdered(rows, t.links, ids)
    ensures var list, shown := t.messages[m].inlined, Hydrated(t, rows, m);
      (forall a :: a in shown ==> a.id in t.stored) <==> list == [] || AnyStored(t.stored, list)
    ensures var list := t.messages[m].inlined;
      Hydrated(t, rows, m) == list <==>
        (forall i :: 0 <= i < |list| ==> list[i].id in t.stored) || !AnyStored(t.stored, list)
  {
    var list := t.messages[m].inlined;
    HydratesLastWritten(t, rows, ids, m);
    KeptIsStored(t.stored, list);
    KeptIsAll(t.stored, list);
    hide Linked, IsOrdered, Hydrated, KeptList;
    if !AnyStored(t.stored, list) && list != [] {
      assert list[0] in list && list[0].id !in t.stored;
    }
  }

  ghost predicate NoPurge(steps: seq<Step>) {
    forall i :: 0 <= i < |steps| ==> !steps[i].Purge?
  }

  ghost predicate AllStored(t: Tables) {
    forall m, i :: m in t.messages && 0 <= i < |t.messages[m].inlined| ==> t.messages[m].inlined[i].id in t.stored
  }

  lemma StepKeepsStored(t: Tables, s: Step)
    requires Linked(t) && AllStored(t) && Enabled(t, s) && !s.Purge?
    ensures AllStored(After(t, s))
  {
    if s.CleanUp? {
      CleanUpKeeps(t, s.ids);
    }
    hide Linked, Unreferenced;
  }

  lemma {:induction false} RunKeepsStored(steps: seq<Step>)
    requires Ran(steps).Some? && NoPurge(steps)
    ensures AllStored(Ran(steps).value)
  {
    if steps == [] {
    } else {
      hide Linked, Enabled, After, AllStored;
      RunKeepsLinked(steps[..|steps| - 1]);
      RunKeepsStored(steps[..|steps| - 1]);
      StepKeepsStored(Ran(steps[..|steps| - 1]).value, steps[|steps| - 1]);
    }
  }

  /** Without bulk deletions, every message is shown with exactly its last written list,
      after any run of uploads, writes, deletions and clean-ups, even when message ids are
      used again. */
  lemma ShowsExactlyWhatWasWritten(steps: seq<Step>, rows: seq<Link>, ids: set<nat>, m: nat)
    requires Ran(steps).Some? && NoPurge(steps)
    requires var t := Ran(steps).value; m in t.messages && m in ids && IsOrdered(rows, t.links, ids)
    ensures Hydrated(Ran(steps).value, rows, m) == Ran(steps).value.messages[m].inlined
  {
    hide Ran;
    RunKeepsLinked(steps);
    RunKeepsStored(steps);
    var t := Ran(steps).value;
    HydratesLastWritten(t, rows, ids, m);
    assert Described(t.stored, t.messages[m].inlined);
    LinksForValidated(t.stored, m, t.messages[m].inlined);
  }
}
