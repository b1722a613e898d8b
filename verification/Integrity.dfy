/** References between users, provider presets, knowledge spaces and conversations, kept
    by the provider, rag and chat services together.

    Every request is one step on the tables; foreign keys are not enforced by the
    database (backend/internal/database/database.go:66-80), so what holds is what the
    services keep. */
module Integrity {
  import opened Text

  datatype Preset = Preset(owner: nat, active: bool)

  datatype Conversation = Conversation(owner: nat, preset: Option<nat>, spaces: seq<nat>)

  /** The default preset of each user, and the tables. */
  datatype Tables = Tables(
    defaults: map<nat, Option<nat>>,
    presets: map<nat, Preset>,
    spaces: map<nat, nat>,
    conversations: map<nat, Conversation>)

  // -------------------------------------------------------------- id lists

  /** `cloneUintSlice`: zeros and repetitions go, the order stays. */
  function Cloned(values: seq<nat>): seq<nat> {
    if values == [] then []
    else
      var rest, v := Cloned(values[..|values| - 1]), values[|values| - 1];
      if v == 0 || v in rest then rest else rest + [v]
  }

  predicate Distinct(ids: seq<nat>) {
    forall i, j :: 0 <= i < j < |ids| ==> ids[i] != ids[j]
  }

  lemma {:induction false} ClonedExactly(values: seq<nat>)
    ensures Distinct(Cloned(values))
    ensures forall v :: v in Cloned(values) <==> v != 0 && v in values
  {
    if values == [] {
    } else {
      var n := |values| - 1;
      ClonedExactly(values[..n]);
      assert values == values[..n] + [values[n]];
    }
  }

  /** A list without zeros and repetitions is left as it is. */
  lemma {:induction false} ClonedKeeps(values: seq<nat>)
    requires Distinct(values) && 0 !in values
    ensures Cloned(values) == values
  {
    if values == [] {
    } else {
      var n := |values| - 1;
      ClonedKeeps(values[..n]);
      assert values == values[..n] + [values[n]];
    }
  }

  /** Every id comes up for the first time before any later one does. */
  ghost predicate InOrderOf(values: seq<nat>, ids: seq<nat>) {
    forall i, j, q :: 0 <= i < j < |ids| && 0 <= q < |values| && values[q] == ids[j] ==> ids[i] in values[..q]
  }

  /** The non-zero values without repetitions, in the order in which each comes first. */
  ghost predicate IsCloneOf(values: seq<nat>, ids: seq<nat>) {
    Distinct(ids) && (forall v :: v in ids <==> v != 0 && v in values) && InOrderOf(values, ids)
  }

  lemma {:induction false} ClonedInOrder(values: seq<nat>)
    ensures IsCloneOf(values, Cloned(values))
  {
    ClonedExactly(values);
    if values == [] {
    } else {
      var n := |values| - 1;
      var rest, ids := Cloned(values[..n]), Cloned(values);
      ClonedInOrder(values[..n]);
      forall i, j, q | 0 <= i < j < |ids| && 0 <= q <= n && values[q] == ids[j] ensures ids[i] in values[..q] {
        assert ids[i] == rest[i] && ids[i] in values[..n];
        if q < n {
          assert values[..n][q] == ids[j] && ids[j] in values[..n];
          assert values[..n][..q] == values[..q];
        }
      }
    }
  }

  method CloneUintSlice(values: seq<nat>) returns (cloned: seq<nat>)
    ensures cloned == Cloned(values)
  {
    cloned := [];
    var seen: set<nat> := {};
    for i := 0 to |values|
      invariant cloned == Cloned(values[..i])
      invariant forall v :: v in seen <==> v in cloned
    {
      var value := values[i];
      assert values[..i + 1][..i] == values[..i];
      if value == 0 {
        continue;
      }
      if value in seen {
        continue;
      }
      seen := seen + {value};
      cloned := cloned + [value];
    }
    assert values[..|values|] == values;
  }

  function Filtered(values: seq<nat>, deleted: nat): (r: seq<nat>)
    ensures |r| <= |values|
  {
    if values == [] then []
    else
      var rest, v := Filtered(values[..|values| - 1], deleted), values[|values| - 1];
      if v != deleted then rest + [v] else rest
  }

  method FilterKnowledgeSpaceIDs(values: seq<nat>, deleted: nat) returns (filtered: seq<nat>)
    ensures filtered == Filtered(values, deleted)
  {
    filtered := [];
    for i := 0 to |values|
      invariant filtered == Filtered(values[..i], deleted)
    {
      assert values[..i + 1][..i] == values[..i];
      if values[i] != deleted {
        filtered := filtered + [values[i]];
      }
    }
    assert values[..|values|] == values;
  }

  lemma DistinctStep(ids: seq<nat>, id: nat)
    ensures Distinct(ids + [id]) <==> Distinct(ids) && id !in ids
  {
    var all := ids + [id];
    if Distinct(all) {
      assert forall i :: 0 <= i < |ids| ==> all[i] == ids[i] && all[i] != all[|ids|];
    }
  }

  lemma {:induction false} FilteredExactly(values: seq<nat>, deleted: nat)
    ensures forall v :: v in Filtered(values, deleted) <==> v in values && v != deleted
    ensures Distinct(values) ==> Distinct(Filtered(values, deleted))
    ensures |Filtered(values, deleted)| == |values| <==> deleted !in values
    ensures deleted !in values ==> Filtered(values, deleted) == values
  {
    if values == [] {
    } else {
      var n := |values| - 1;
      FilteredExactly(values[..n], deleted);
      assert values == values[..n] + [values[n]];
      DistinctStep(values[..n], values[n]);
      DistinctStep(Filtered(values[..n], deleted), values[n]);
      hide Distinct;
    }
  }

  /** `r` is `ids` without the deleted id, if one is deleted: `ids` falls into the ids of `r`, in
      order, and copies of the deleted one. */
  ghost predicate IsWithout(ids: seq<nat>, r: seq<nat>, deleted: Option<nat>)
    decreases |ids|
  {
    if ids == [] then r == []
    else
      var n := |ids| - 1;
      if deleted == Some(ids[n]) then IsWithout(ids[..n], r, deleted)
      else r != [] && r[|r| - 1] == ids[n] && IsWithout(ids[..n], r[..|r| - 1], deleted)
  }

  lemma {:induction false} FilteredIsWithout(ids: seq<nat>, deleted: nat)
    ensures IsWithout(ids, Filtered(ids, deleted), Some(deleted)) && IsWithout(ids, ids, None)
  {
    if ids == [] {
    } else {
      FilteredIsWithout(ids[..|ids| - 1], deleted);
    }
  }

  // -------------------------------------------------------------- counting

  function Elements(ids: seq<nat>): set<nat> {
    set id | id in ids
  }

  function OwnedAmong(spaces: map<nat, nat>, user: nat, ids: seq<nat>): set<nat> {
    set id | id in ids && id in spaces && spaces[id] == user
  }

  /** `SELECT count(*) … WHERE user_id = ? AND id IN ?` */
  function Counted(spaces: map<nat, nat>, user: nat, ids: seq<nat>): nat {
    |OwnedAmong(spaces, user, ids)|
  }

  ghost predicate AllOwned(spaces: map<nat, nat>, user: nat, ids: seq<nat>) {
    forall id :: id in ids ==> id in spaces && spaces[id] == user
  }

  lemma {:induction false} ElementCount(ids: seq<nat>)
    ensures |Elements(ids)| <= |ids|
    ensures |Elements(ids)| == |ids| <==> Distinct(ids)
  {
    if ids == [] {
    } else {
      var n := |ids| - 1;
      ElementCount(ids[..n]);
      assert ids == ids[..n] + [ids[n]];
      assert Elements(ids) == Elements(ids[..n]) + {ids[n]};
      if Distinct(ids[..n]) && ids[n] in ids[..n] {
        var i :| 0 <= i < n && ids[..n][i] == ids[n];
        assert ids[i] == ids[n];
      }
    }
  }

  lemma SubsetCount(a: set<nat>, b: set<nat>)
    requires a <= b
    ensures |a| <= |b| && (|a| == |b| <==> a == b)
  {
    assert b == a + (b - a) && a !! (b - a);
  }

  /** The count equals the length exactly if the ids are distinct and all the user's. */
  lemma CountIsLength(spaces: map<nat, nat>, user: nat, ids: seq<nat>)
    ensures Counted(spaces, user, ids) == |ids| <==> Distinct(ids) && AllOwned(spaces, user, ids)
  {
    var owned, all := OwnedAmong(spaces, user, ids), Elements(ids);
    ElementCount(ids);
    SubsetCount(owned, all);
    assert owned == all <==> AllOwned(spaces, user, ids) by {
      if owned == all {
        forall id | id in ids ensures id in spaces && spaces[id] == user {
          assert id in all;
        }
      }
    }
  }

  // ---------------------------------------------------------- the requests

  ghost predicate OwnsPreset(t: Tables, user: nat, id: nat) {
    id in t.presets && t.presets[id].owner == user
  }

  /** `validateProviderPresetOwnership` lets it pass. */
  ghost predicate PresetAllowed(t: Tables, user: nat, preset: Option<nat>) {
    preset.Some? && preset.value != 0 ==> OwnsPreset(t, user, preset.value)
  }

  function Deactivated(presets: map<nat, Preset>, user: nat): map<nat, Preset> {
    map id | id in presets :: if presets[id].owner == user then presets[id].(active := false) else presets[id]
  }

  function PresetCleared(conversations: map<nat, Conversation>, user: nat, preset: nat): map<nat, Conversation> {
    map c | c in conversations ::
      if conversations[c].owner == user && conversations[c].preset == Some(preset)
      then conversations[c].(preset := None) else conversations[c]
  }

  function SpaceCleared(conversations: map<nat, Conversation>, user: nat, space: nat): map<nat, Conversation> {
    map c | c in conversations ::
      if conversations[c].owner == user
      then conversations[c].(spaces := Filtered(conversations[c].spaces, space)) else conversations[c]
  }

  /** Requests of the signed-in `user`.  The id of a new row is the database's choice.
      `settings` is absent if the request has none, and its preset if they name none. */
  datatype Request =
    | AddUser(id: nat)
    | CreatePreset(user: nat, id: nat)
    | ActivatePreset(user: nat, id: nat)
    | DeletePreset(user: nat, id: nat)
    | UpdateChatSettings(user: nat, preset: Option<nat>)
    | CreateSpace(user: nat, id: nat)
    | DeleteSpace(user: nat, id: nat)
    | CreateConversation(user: nat, id: nat, ids: seq<nat>, settings: Option<Option<nat>>)
    | UpdateConversation(user: nat, id: nat, newIds: Option<seq<nat>>, settings: Option<Option<nat>>)
    | DeleteConversation(user: nat, id: nat)

  /** Whether a request goes through; if not, it is an error and changes nothing. */
  ghost predicate Accepted(t: Tables, r: Request) {
    match r
    case AddUser(id) => id !in t.defaults
    case CreatePreset(user, id) => id != 0 && id !in t.presets
    case ActivatePreset(user, id) => OwnsPreset(t, user, id)
    case DeletePreset(user, id) => OwnsPreset(t, user, id)
    case UpdateChatSettings(user, preset) => PresetAllowed(t, user, preset)
    case CreateSpace(user, id) => id != 0 && id !in t.spaces
    case DeleteSpace(user, id) => id in t.spaces && t.spaces[id] == user
    case CreateConversation(user, id, ids, settings) =>
      && id !in t.conversations && AllOwned(t.spaces, user, Cloned(ids))
      && (settings.Some? ==> PresetAllowed(t, user, settings.value))
    case UpdateConversation(user, id, newIds, settings) =>
      && id in t.conversations && t.conversations[id].owner == user
      && (newIds.Some? ==> AllOwned(t.spaces, user, Cloned(newIds.value)))
      && (settings.Some? ==> PresetAllowed(t, user, settings.value))
    case DeleteConversation(user, id) => id in t.conversations && t.conversations[id].owner == user
  }

  function Changed(t: Tables, r: Request): Tables {
    match r
    case AddUser(id) => t.(defaults := t.defaults[id := None])
    case CreatePreset(user, id) => t.(presets := Deactivated(t.presets, user)[id := Preset(user, true)])
    case ActivatePreset(user, id) => t.(presets := Deactivated(t.presets, user)[id := Preset(user, true)])
    case DeletePreset(user, id) =>
      t.(defaults :=
           if user in t.defaults && t.defaults[user] == Some(id) then t.defaults[user := None] else t.defaults,
         conversations := PresetCleared(t.conversations, user, id),
         presets := t.presets - {id})
    case UpdateChatSettings(user, preset) =>
      if user in t.defaults then t.(defaults := t.defaults[user := preset]) else t
    case CreateSpace(user, id) => t.(spaces := t.spaces[id := user])
    case DeleteSpace(user, id) =>
      t.(conversations := SpaceCleared(t.conversations, user, id), spaces := t.spaces - {id})
    case CreateConversation(user, id, ids, settings) =>
      var c := Conversation(user, if settings.Some? then settings.value else None, Cloned(ids));
      t.(conversations := t.conversations[id := c])
    case UpdateConversation(user, id, newIds, settings) =>
      if id !in t.conversations then t
      else
        var c := t.conversations[id];
        var c' := c.(preset := if settings.Some? then settings.value else c.preset,
                     spaces := if newIds.Some? then Cloned(newIds.value) else c.spaces);
        t.(conversations := t.conversations[id := c'])
    case DeleteConversation(user, id) => t.(conversations := t.conversations - {id})
  }

  ghost function Served(t: Tables, r: Request): Tables {
    if Accepted(t, r) then Changed(t, r) else t
  }

  ghost function ServedAll(requests: seq<Request>): Tables {
    if requests == [] then Tables(map[], map[], map[], map[])
    else Served(ServedAll(requests[..|requests| - 1]), requests[|requests| - 1])
  }

  // ------------------------------------------------------------- integrity

  ghost predicate SpacesOk(t: Tables, c: Conversation) {
    Distinct(c.spaces) && 0 !in c.spaces && AllOwned(t.spaces, c.owner, c.spaces)
  }

  ghost predicate PresetsOk(t: Tables) {
    && 0 !in t.presets
    && forall p, q ::
         (&& p in t.presets && t.presets[p].active
          && q in t.presets && t.presets[q].active
          && t.presets[p].owner == t.presets[q].owner)
         ==> p == q
  }

  ghost predicate Integral(t: Tables) {
    && PresetsOk(t)
    && 0 !in t.spaces
    && (forall u :: u in t.defaults ==> PresetAllowed(t, u, t.defaults[u]))
    && (forall c :: c in t.conversations ==>
          PresetAllowed(t, t.conversations[c].owner, t.conversations[c].preset) && SpacesOk(t, t.conversations[c]))
  }

  lemma SameSpaces(t: Tables, t': Tables, c: Conversation)
    requires SpacesOk(t, c) && forall id :: id in t.spaces ==> id in t'.spaces && t'.spaces[id] == t.spaces[id]
    ensures SpacesOk(t', c)
  {
  }

  lemma ActivationKeeps(t: Tables, user: nat, id: nat)
    requires Integral(t) && id != 0 && (id in t.presets ==> t.presets[id].owner == user)
    ensures Integral(t.(presets := Deactivated(t.presets, user)[id := Preset(user, true)]))
  {
    hide SpacesOk;
    var t' := t.(presets := Deactivated(t.presets, user)[id := Preset(user, true)]);
    assert PresetsOk(t');
    assert forall u, k :: OwnsPreset(t, u, k) ==> OwnsPreset(t', u, k);
    hide Deactivated, PresetsOk;
    forall c | c in t'.conversations ensures SpacesOk(t', t'.conversations[c]) {
      SameSpaces(t, t', t.conversations[c]);
    }
  }

  lemma DeletePresetKeeps(t: Tables, user: nat, id: nat)
    requires Integral(t) && OwnsPreset(t, user, id)
    ensures Integral(Changed(t, DeletePreset(user, id)))
  {
    var t' := Changed(t, DeletePreset(user, id));
    assert PresetsOk(t');
    assert forall u, k :: OwnsPreset(t, u, k) && k != id ==> OwnsPreset(t', u, k);
    forall c | c in t'.conversations ensures SpacesOk(t', t'.conversations[c]) {
      SameSpaces(t, t', t.conversations[c]);
    }
  }

  lemma SpacesWithout(t: Tables, id: nat, c: Conversation)
    requires SpacesOk(t, c) && id in t.spaces
    ensures var ids := if c.owner == t.spaces[id] then Filtered(c.spaces, id) else c.spaces;
      SpacesOk(Changed(t, DeleteSpace(t.spaces[id], id)), c.(spaces := ids))
  {
    FilteredExactly(c.spaces, id);
    hide Distinct, Filtered;
  }

  lemma DeleteSpaceKeeps(t: Tables, user: nat, id: nat)
    requires Integral(t) && id in t.spaces && t.spaces[id] == user
    ensures Integral(Changed(t, DeleteSpace(user, id)))
  {
    var t' := Changed(t, DeleteSpace(user, id));
    hide SpacesOk, Filtered;
    forall c | c in t'.conversations
      ensures SpacesOk(t', t'.conversations[c])
    {
      SpacesWithout(t, id, t.conversations[c]);
    }
    assert forall u, k :: OwnsPreset(t, u, k) ==> OwnsPreset(t', u, k);
  }

  lemma SetConversationKeeps(t: Tables, id: nat, c: Conversation)
    requires Integral(t) && PresetAllowed(t, c.owner, c.preset) && SpacesOk(t, c)
    ensures Integral(t.(conversations := t.conversations[id := c]))
  {
    var t' := t.(conversations := t.conversations[id := c]);
    forall k | k in t'.conversations ensures SpacesOk(t', t'.conversations[k]) {
      if k != id {
        SameSpaces(t, t', t.conversations[k]);
      }
    }
  }

  lemma ClonedIsOk(t: Tables, owner: nat, preset: Option<nat>, ids: seq<nat>)
    requires AllOwned(t.spaces, owner, Cloned(ids))
    ensures SpacesOk(t, Conversation(owner, preset, Cloned(ids)))
  {
    ClonedExactly(ids);
  }

  /** Other rows do not matter to a reference. */
  lemma OthersKeep(t: Tables, r: Request)
    requires Integral(t) && Accepted(t, r)
    requires r.AddUser? || r.UpdateChatSettings? || r.CreateSpace? || r.DeleteConversation?
    ensures Integral(Changed(t, r))
  {
    var t' := Changed(t, r);
    assert PresetsOk(t');
    assert forall u, k :: OwnsPreset(t, u, k) ==> OwnsPreset(t', u, k);
    forall c | c in t'.conversations ensures SpacesOk(t', t'.conversations[c]) {
      SameSpaces(t, t', t.conversations[c]);
    }
  }

  lemma PresetIdsAreNotZero(t: Tables)
    requires Integral(t)
    ensures 0 !in t.presets
  {
  }

  lemma SpacesOfSame(t: Tables, c: Conversation, c': Conversation)
    requires SpacesOk(t, c) && c'.owner == c.owner && c'.spaces == c.spaces
    ensures SpacesOk(t, c')
  {
  }

  lemma UpdateKeeps(t: Tables, user: nat, id: nat, newIds: Option<seq<nat>>, settings: Option<Option<nat>>)
    requires Integral(t) && Accepted(t, UpdateConversation(user, id, newIds, settings))
    ensures Integral(Changed(t, UpdateConversation(user, id, newIds, settings)))
  {
    var c := t.conversations[id];
    var preset := if settings.Some? then settings.value else c.preset;
    assert SpacesOk(t, c) && PresetAllowed(t, c.owner, c.preset);
    if newIds.Some? {
      ClonedIsOk(t, user, preset, newIds.value);
    }
    hide Integral, AllOwned, Cloned, SpacesOk;
    var c' := c.(preset := preset, spaces := if newIds.Some? then Cloned(newIds.value) else c.spaces);
    assert SpacesOk(t, c') by {
      if newIds == None {
        SpacesOfSame(t, c, c');
      }
    }
    SetConversationKeeps(t, id, c');
  }

  lemma RequestKeepsIntegrity(t: Tables, r: Request)
    requires Integral(t)
    ensures Integral(Served(t, r))
  {
    hide Integral, Deactivated, AllOwned, Cloned;
    if Accepted(t, r) {
      match r
      case CreatePreset(user, id) => ActivationKeeps(t, user, id);
      case ActivatePreset(user, id) => PresetIdsAreNotZero(t); ActivationKeeps(t, user, id);
      case DeletePreset(user, id) => DeletePresetKeeps(t, user, id);
      case DeleteSpace(user, id) => DeleteSpaceKeeps(t, user, id);
      case CreateConversation(user, id, ids, settings) =>
        var preset := if settings.Some? then settings.value else None;
        ClonedIsOk(t, user, preset, ids);
        SetConversationKeeps(t, id, Conversation(user, preset, Cloned(ids)));
      case UpdateConversation(user, id, newIds, settings) =>
        UpdateKeeps(t, user, id, newIds, settings);
      case _ => OthersKeep(t, r);
    }
  }

  /** Whatever requests were served, in whatever order, by whatever users. */
  lemma {:induction false} RunKeepsIntegrity(requests: seq<Request>)
    ensures Integral(ServedAll(requests))
  {
    if requests == [] {
    } else {
      hide Integral, Served;
      RunKeepsIntegrity(requests[..|requests| - 1]);
      RequestKeepsIntegrity(ServedAll(requests[..|requests| - 1]), requests[|requests| - 1]);
    }
  }

  // ------------------------------------------------- what a request stores

  /** The spaces named are all the user's. */
  ghost predicate NamesOwnSpaces(t: Tables, user: nat, ids: seq<nat>) {
    forall s :: s in ids && s != 0 ==> s in t.spaces && t.spaces[s] == user
  }

  /** The settings, if there are any and they name a preset, name one of the user's. */
  ghost predicate NamesOwnPreset(t: Tables, user: nat, settings: Option<Option<nat>>) {
    settings.Some? && settings.value.Some? && settings.value.value != 0 ==>
      settings.value.value in t.presets && t.presets[settings.value.value].owner == user
  }

  lemma ClonedOwned(t: Tables, user: nat, ids: seq<nat>)
    ensures AllOwned(t.spaces, user, Cloned(ids)) <==> NamesOwnSpaces(t, user, ids)
  {
    ClonedExactly(ids);
    hide Cloned, Distinct;
  }

  /** All tables but the conversations are the same, and so is every conversation but `id`. */
  ghost predicate OnlyConversation(t: Tables, t': Tables, id: nat) {
    && t'.defaults == t.defaults && t'.presets == t.presets && t'.spaces == t.spaces
    && forall c :: c != id ==>
         (c in t'.conversations <==> c in t.conversations)
         && (c in t.conversations ==> t'.conversations[c] == t.conversations[c])
  }

  lemma CreationStores(t: Tables, user: nat, id: nat, ids: seq<nat>, settings: Option<Option<nat>>)
    requires id !in t.conversations
    ensures var t' := Served(t, CreateConversation(user, id, ids, settings));
      if NamesOwnSpaces(t, user, ids) && NamesOwnPreset(t, user, settings) then
        && OnlyConversation(t, t', id) && id in t'.conversations
        && t'.conversations[id].owner == user
        && t'.conversations[id].preset == (if settings.Some? then settings.value else None)
        && IsCloneOf(ids, t'.conversations[id].spaces)
      else t' == t
  {
    ClonedOwned(t, user, ids);
    ClonedInOrder(ids);
    hide Cloned, AllOwned, IsCloneOf;
  }

  /** What an accepted update stores: the given preset if settings were given, the given spaces
      if spaces were given, and otherwise the old ones. */
  lemma UpdateStores(t: Tables, user: nat, id: nat, newIds: Option<seq<nat>>, settings: Option<Option<nat>>)
    ensures var t' := Served(t, UpdateConversation(user, id, newIds, settings));
      if && id in t.conversations && t.conversations[id].owner == user
         && (newIds.Some? ==> NamesOwnSpaces(t, user, newIds.value)) && NamesOwnPreset(t, user, settings)
      then
        && OnlyConversation(t, t', id) && id in t'.conversations
        && t'.conversations[id].owner == user
        && t'.conversations[id].preset == (if settings.Some? then settings.value else t.conversations[id].preset)
        && (if newIds.Some? then IsCloneOf(newIds.value, t'.conversations[id].spaces)
            else t'.conversations[id].spaces == t.conversations[id].spaces)
      else t' == t
  {
    if newIds.Some? {
      ClonedOwned(t, user, newIds.value);
      ClonedInOrder(newIds.value);
    }
    hide Cloned, AllOwned, IsCloneOf;
  }

  lemma ConversationIsDeleted(t: Tables, user: nat, id: nat)
    ensures var t' := Served(t, DeleteConversation(user, id));
      if id in t.conversations && t.conversations[id].owner == user
      then OnlyConversation(t, t', id) && id !in t'.conversations else t' == t
  {
  }

  lemma SettingsStore(t: Tables, user: nat, preset: Option<nat>)
    ensures var t' := Served(t, UpdateChatSettings(user, preset));
      if user in t.defaults && NamesOwnPreset(t, user, Some(preset)) then
        && t'.presets == t.presets && t'.spaces == t.spaces && t'.conversations == t.conversations
        && t'.defaults.Keys == t.defaults.Keys && t'.defaults[user] == preset
        && (forall u :: u in t.defaults && u != user ==> t'.defaults[u] == t.defaults[u])
      else t' == t
  {
  }

  /** Creating or activating a preset leaves it the only active one of its user, and no preset
      changes its owner or goes away. */
  lemma PresetIsActivated(t: Tables, user: nat, id: nat, r: Request)
    requires r == CreatePreset(user, id) || r == ActivatePreset(user, id)
    ensures var t' := Served(t, r);
      if (if r.CreatePreset? then id == 0 || id in t.presets else id !in t.presets || t.presets[id].owner != user)
      then t' == t
      else
        && t'.defaults == t.defaults && t'.spaces == t.spaces && t'.conversations == t.conversations
        && t'.presets.Keys == t.presets.Keys + {id} && t'.presets[id] == Preset(user, true)
        && (forall p :: p in t.presets && p != id ==>
              && t'.presets[p].owner == t.presets[p].owner
              && t'.presets[p].active == (t.presets[p].active && t.presets[p].owner != user))
  {
  }

  lemma RowIsAdded(t: Tables, user: nat, id: nat)
    ensures Served(t, AddUser(user)) == if user in t.defaults then t else t.(defaults := t.defaults[user := None])
    ensures Served(t, CreateSpace(user, id)) ==
      if id == 0 || id in t.spaces then t else t.(spaces := t.spaces[id := user])
  {
  }

  /** Deleting a preset takes its row away, and every reference of its owner to it, but nothing
      else. */
  lemma PresetIsDeleted(t: Tables, user: nat, id: nat)
    ensures var t' := Served(t, DeletePreset(user, id));
      if id in t.presets && t.presets[id].owner == user then
        && t'.spaces == t.spaces && t'.presets.Keys == t.presets.Keys - {id}
        && (forall p :: p in t'.presets ==> t'.presets[p] == t.presets[p])
        && t'.defaults.Keys == t.defaults.Keys && t'.conversations.Keys == t.conversations.Keys
        && (forall u :: u in t.defaults ==>
              t'.defaults[u] == if u == user && t.defaults[u] == Some(id) then None else t.defaults[u])
        && (forall c :: c in t.conversations ==>
              && t'.conversations[c].owner == t.conversations[c].owner
              && t'.conversations[c].spaces == t.conversations[c].spaces
              && t'.conversations[c].preset ==
                   (if t.conversations[c].owner == user && t.conversations[c].preset == Some(id) then None
                    else t.conversations[c].preset))
      else t' == t
  {
  }

  /** Deleting a space takes it away, and out of its owner's conversations, and leaves the other
      ids there in their order. */
  lemma SpaceIsDeleted(t: Tables, user: nat, id: nat)
    ensures var t' := Served(t, DeleteSpace(user, id));
      if id in t.spaces && t.spaces[id] == user then
        && t'.defaults == t.defaults && t'.presets == t.presets && t'.conversations.Keys == t.conversations.Keys
        && t'.spaces.Keys == t.spaces.Keys - {id} && (forall s :: s in t'.spaces ==> t'.spaces[s] == t.spaces[s])
        && (forall c :: c in t.conversations ==>
              && t'.conversations[c].owner == t.conversations[c].owner
              && t'.conversations[c].preset == t.conversations[c].preset
              && IsWithout(t.conversations[c].spaces, t'.conversations[c].spaces,
                           if t.conversations[c].owner == user then Some(id) else None))
      else t' == t
  {
    hide Filtered, IsWithout;
    forall c | c in t.conversations ensures
      && IsWithout(t.conversations[c].spaces, t.conversations[c].spaces, None)
      && IsWithout(t.conversations[c].spaces, Filtered(t.conversations[c].spaces, id), Some(id))
    {
      FilteredIsWithout(t.conversations[c].spaces, id);
    }
  }
}
