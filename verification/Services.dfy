/** The services' methods on the tables of `Integrity`, and what the kept integrity means
    for resolving a provider and searching knowledge spaces. */
module Services {
  import opened Text
  import opened Integrity

  datatype Resolution = RecordNotFound | NoPreset | Chosen(id: nat)

  ghost predicate IsActive(t: Tables, user: nat, id: nat) {
    id in t.presets && t.presets[id].owner == user && t.presets[id].active
  }

  /** `activePreset`.  The query takes the latest of several; there is never more than one. */
  ghost function ActiveOf(t: Tables, user: nat): Option<nat> {
    if exists id :: IsActive(t, user, id) then
      var id :| IsActive(t, user, id);
      Some(id)
    else None
  }

  function DefaultOf(t: Tables, user: nat): Option<nat> {
    if user in t.defaults then t.defaults[user] else None
  }

  /** `resolvePresetForUser`: an explicit id must exist; a default that does not is passed over. */
  ghost function Resolved(t: Tables, user: nat, preferred: Option<nat>): Resolution {
    var default := DefaultOf(t, user);
    if preferred.Some? && preferred.value != 0 then
      if OwnsPreset(t, user, preferred.value) then Chosen(preferred.value) else RecordNotFound
    else if default.Some? && OwnsPreset(t, user, default.value) then Chosen(default.value)
    else if ActiveOf(t, user).Some? then Chosen(ActiveOf(t, user).value)
    else NoPreset
  }

  /** `firstNonNilUint` of the conversation's preset and the user's default. */
  function Preference(t: Tables, c: Conversation): Option<nat> {
    if c.preset.Some? then c.preset else DefaultOf(t, c.owner)
  }

  lemma NothingIsOwned(spaces: map<nat, nat>, user: nat)
    ensures AllOwned(spaces, user, [])
  {
  }

  lemma ClonedTwice(ids: seq<nat>)
    ensures Cloned(Cloned(ids)) == Cloned(ids)
  {
    ClonedExactly(ids);
    ClonedKeeps(Cloned(ids));
  }

  lemma ActiveIsUnique(t: Tables, user: nat, id: nat)
    requires PresetsOk(t) && IsActive(t, user, id)
    ensures ActiveOf(t, user) == Some(id)
  {
  }

  class Database {
    var defaults: map<nat, Option<nat>>
    var presets: map<nat, Preset>
    var spaces: map<nat, nat>
    var conversations: map<nat, Conversation>

    ghost function State(): Tables
      reads this
    {
      Tables(defaults, presets, spaces, conversations)
    }

    constructor ()
      ensures State() == ServedAll([])
    {
      defaults, presets, spaces, conversations := map[], map[], map[], map[];
    }

    /** Counting leaves no doubt: the count is compared with the number of ids. */
    method ValidateKnowledgeSpaceOwnership(user: nat, ids: seq<nat>) returns (ok: bool)
      ensures ok <==> AllOwned(spaces, user, Cloned(ids))
    {
      ClonedExactly(ids);
      var wanted := CloneUintSlice(ids);
      CountIsLength(spaces, user, wanted);
      hide AllOwned, Distinct, Cloned;
      if |wanted| == 0 {
        NothingIsOwned(spaces, user);
        return true;
      }
      var count := Counted(spaces, user, wanted);
      return count == |wanted|;
    }

    method ValidateProviderPresetOwnership(user: nat, preset: Option<nat>) returns (ok: bool)
      ensures ok <==> PresetAllowed(State(), user, preset)
    {
      if preset == None || preset.value == 0 {
        return true;
      }
      return preset.value in presets && presets[preset.value].owner == user;
    }

    method CreatePreset(user: nat, id: nat)
      requires id != 0 && id !in presets
      modifies this`presets
      ensures State() == Served(old(State()), Request.CreatePreset(user, id))
    {
      DeactivatePresets(user);
      presets := presets[id := Preset(user, true)];
    }

    method DeactivatePresets(user: nat)
      modifies this`presets
      ensures presets == Deactivated(old(presets), user)
    {
      ghost var before := presets;
      var remaining := presets.Keys;
      while remaining != {}
        invariant remaining <= before.Keys && presets.Keys == before.Keys
        invariant forall id :: id in before ==>
          presets[id] ==
            if id !in remaining && before[id].owner == user then before[id].(active := false) else before[id]
        decreases remaining
      {
        var id :| id in remaining;
        remaining := remaining - {id};
        if presets[id].owner == user {
          presets := presets[id := presets[id].(active := false)];
        }
      }
    }

    method ActivatePreset(user: nat, id: nat) returns (ok: bool)
      modifies this`presets
      ensures ok <==> OwnsPreset(old(State()), user, id)
      ensures State() == Served(old(State()), Request.ActivatePreset(user, id))
    {
      if !(id in presets && presets[id].owner == user) {
        return false;
      }
      DeactivatePresets(user);
      presets := presets[id := presets[id].(active := true)];
      return true;
    }

    method DeletePreset(user: nat, id: nat) returns (ok: bool)
      modifies this
      ensures ok <==> OwnsPreset(old(State()), user, id)
      ensures State() == Served(old(State()), Request.DeletePreset(user, id))
    {
      if !(id in presets && presets[id].owner == user) {
        return false;
      }
      if user in defaults && defaults[user] == Some(id) {
        defaults := defaults[user := None];
      }
      ClearConversationPresets(user, id);
      presets := presets - {id};
      return true;
    }

    method ClearConversationPresets(user: nat, id: nat)
      modifies this`conversations
      ensures conversations == PresetCleared(old(conversations), user, id)
    {
      ghost var before := conversations;
      var remaining := conversations.Keys;
      while remaining != {}
        invariant remaining <= before.Keys && conversations.Keys == before.Keys
        invariant forall c :: c in remaining ==> conversations[c] == before[c]
        invariant forall c :: c in before.Keys - remaining ==> conversations[c] == PresetCleared(before, user, id)[c]
        decreases remaining
      {
        var c :| c in remaining;
        remaining := remaining - {c};
        if conversations[c].owner == user && conversations[c].preset == Some(id) {
          conversations := conversations[c := conversations[c].(preset := None)];
        }
      }
    }

    method UpdateChatSettings(user: nat, preset: Option<nat>) returns (ok: bool)
      modifies this`defaults
      ensures ok <==> PresetAllowed(old(State()), user, preset)
      ensures State() == Served(old(State()), Request.UpdateChatSettings(user, preset))
    {
      ok := ValidateProviderPresetOwnership(user, preset);
      if !ok {
        return;
      }
      if user in defaults {
        defaults := defaults[user := preset];
      }
    }

    method CreateSpace(user: nat, id: nat)
      requires id != 0 && id !in spaces
      modifies this`spaces
      ensures State() == Served(old(State()), Request.CreateSpace(user, id))
    {
      spaces := spaces[id := user];
    }

    method DeleteSpace(user: nat, id: nat) returns (ok: bool)
      modifies this`conversations, this`spaces
      ensures ok <==> id in old(spaces) && old(spaces)[id] == user
      ensures State() == Served(old(State()), Request.DeleteSpace(user, id))
    {
      if !(id in spaces && spaces[id] == user) {
        return false;
      }
      CleanupConversationReferences(user, id);
      spaces := spaces - {id};
      return true;
    }

    /** Conversations whose list does not shrink are not saved again. */
    method CleanupConversationReferences(user: nat, space: nat)
      modifies this`conversations
      ensures conversations == SpaceCleared(old(conversations), user, space)
    {
      hide Filtered;
      ghost var before := conversations;
      var remaining := conversations.Keys;
      while remaining != {}
        invariant remaining <= before.Keys && conversations.Keys == before.Keys
        invariant forall c :: c in remaining ==> conversations[c] == before[c]
        invariant forall c :: c in before.Keys - remaining ==> conversations[c] == SpaceCleared(before, user, space)[c]
        decreases remaining
      {
        var c :| c in remaining;
        remaining := remaining - {c};
        if conversations[c].owner == user {
          var filtered := FilterKnowledgeSpaceIDs(conversations[c].spaces, space);
          FilteredExactly(conversations[c].spaces, space);
          if |filtered| != |conversations[c].spaces| {
            conversations := conversations[c := conversations[c].(spaces := filtered)];
          }
        }
      }
    }

    method CreateConversation(user: nat, id: nat, ids: seq<nat>, settings: Option<Option<nat>>) returns (ok: bool)
      requires id !in conversations
      modifies this`conversations
      ensures ok <==> Accepted(old(State()), Request.CreateConversation(user, id, ids, settings))
      ensures State() == Served(old(State()), Request.CreateConversation(user, id, ids, settings))
    {
      hide AllOwned, Cloned;
      ok := ValidateKnowledgeSpaceOwnership(user, ids);
      if !ok {
        return;
      }
      var preset := None;
      if settings.Some? {
        ok := ValidateProviderPresetOwnership(user, settings.value);
        if !ok {
          return;
        }
        preset := settings.value;
      }
      var kept := CloneUintSlice(ids);
      conversations := conversations[id := Conversation(user, preset, kept)];
    }

    method UpdateConversation(user: nat, id: nat, newIds: Option<seq<nat>>, settings: Option<Option<nat>>)
        returns (ok: bool)
      modifies this`conversations
      ensures ok <==> Accepted(old(State()), Request.UpdateConversation(user, id, newIds, settings))
      ensures State() == Served(old(State()), Request.UpdateConversation(user, id, newIds, settings))
    {
      if !(id in conversations && conversations[id].owner == user) {
        return false;
      }
      var c := conversations[id];
      if newIds.Some? {
        var kept := CloneUintSlice(newIds.value);
        ok := ValidateKnowledgeSpaceOwnership(user, kept);
        ClonedTwice(newIds.value);
        if !ok {
          return;
        }
        c := c.(spaces := kept);
      }
      hide AllOwned, Cloned;
      if settings.Some? {
        ok := ValidateProviderPresetOwnership(user, settings.value);
        if !ok {
          return;
        }
        c := c.(preset := settings.value);
      }
      conversations := conversations[id := c];
      return true;
    }

    method DeleteConversation(user: nat, id: nat) returns (ok: bool)
      modifies this`conversations
      ensures ok <==> id in old(conversations) && old(conversations)[id].owner == user
      ensures State() == Served(old(State()), Request.DeleteConversation(user, id))
    {
      if !(id in conversations && conversations[id].owner == user) {
        return false;
      }
      conversations := conversations - {id};
      return true;
    }

    method ResolvePresetForUser(user: nat, preferred: Option<nat>) returns (r: Resolution)
      requires PresetsOk(State())
      ensures r == Resolved(State(), user, preferred)
    {
      if preferred.Some? && preferred.value != 0 {
        if preferred.value in presets && presets[preferred.value].owner == user {
          return Chosen(preferred.value);
        }
        return RecordNotFound;
      }
      var default := DefaultPresetID(user);
      if default.Some? {
        if default.value in presets && presets[default.value].owner == user {
          return Chosen(default.value);
        }
      }
      if id :| id in presets && presets[id].owner == user && presets[id].active {
        assert IsActive(State(), user, id);
        ActiveIsUnique(State(), user, id);
        return Chosen(id);
      }
      return NoPreset;
    }

    method DefaultPresetID(user: nat) returns (default: Option<nat>)
      ensures default == DefaultOf(State(), user)
    {
      if user in defaults {
        return defaults[user];
      }
      return None;
    }
  }

  // ------------------------------------------------------ what it is good for

  lemma OtherPresetsStay(t: Tables, r: Request, user: nat, id: nat, other: nat)
    requires Integral(t) && Accepted(t, r) && other != user
    requires r == Request.CreatePreset(user, id) || r == Request.ActivatePreset(user, id)
    ensures ActiveOf(Served(t, r), other) == ActiveOf(t, other)
  {
    var t' := Served(t, r);
    assert forall k :: IsActive(t', other, k) <==> IsActive(t, other, k);
    RequestKeepsIntegrity(t, r);
    if k :| IsActive(t, other, k) {
      ActiveIsUnique(t, other, k);
      ActiveIsUnique(t', other, k);
    }
  }

  /** Creating or activating a preset makes it the active one, and no other user's. */
  lemma ActivatedIsActive(t: Tables, user: nat, id: nat, r: Request)
    requires Integral(t) && Accepted(t, r)
    requires r == Request.CreatePreset(user, id) || r == Request.ActivatePreset(user, id)
    ensures ActiveOf(Served(t, r), user) == Some(id)
    ensures forall other :: other != user ==> ActiveOf(Served(t, r), other) == ActiveOf(t, other)
  {
    var t' := Served(t, r);
    RequestKeepsIntegrity(t, r);
    assert IsActive(t', user, id);
    ActiveIsUnique(t', user, id);
    forall other | other != user ensures ActiveOf(t', other) == ActiveOf(t, other) {
      OtherPresetsStay(t, r, user, id, other);
    }
  }

  /** An explicit choice is taken or refused; without one the default is taken if the user has
      it, and else whichever preset is active. */
  lemma ResolvesInOrder(t: Tables, user: nat, preferred: Option<nat>)
    ensures var r, default := Resolved(t, user, preferred), if user in t.defaults then t.defaults[user] else None;
      if preferred.Some? && preferred.value != 0 then
        r == if OwnsPreset(t, user, preferred.value) then Chosen(preferred.value) else RecordNotFound
      else if default.Some? && OwnsPreset(t, user, default.value) then r == Chosen(default.value)
      else
        && (forall id :: r == Chosen(id) ==> id in t.presets && t.presets[id] == Preset(user, true))
        && (r == NoPreset <==> forall id :: id in t.presets ==> t.presets[id] != Preset(user, true))
        && r != RecordNotFound
  {
    hide OwnsPreset;
    if id :| id in t.presets && t.presets[id] == Preset(user, true) {
      assert IsActive(t, user, id);
    }
  }

  /** After any run of requests, a conversation's own preference resolves: to exactly the
      preset it names, or, if it names none, to the default, the active preset, or nothing,
      but never to a missing record; and what is chosen is the owner's. */
  lemma StoredPreferenceResolves(requests: seq<Request>, c: nat)
    requires c in ServedAll(requests).conversations
    ensures var t := ServedAll(requests);
      var owner, preference := t.conversations[c].owner, Preference(t, t.conversations[c]);
      var r := Resolved(t, owner, preference);
      && r != RecordNotFound
      && (preference.Some? && preference.value != 0 ==> r == Chosen(preference.value))
      && preference == (if t.conversations[c].preset.Some? then t.conversations[c].preset
                        else if owner in t.defaults then t.defaults[owner] else None)
      && (r.Chosen? ==> OwnsPreset(t, owner, r.id))
      && (r == NoPreset ==> forall k :: !IsActive(t, owner, k))
  {
    hide ServedAll, SpacesOk;
    RunKeepsIntegrity(requests);
    var t := ServedAll(requests);
    var conversation := t.conversations[c];
    assert PresetAllowed(t, conversation.owner, conversation.preset);
    assert conversation.owner in t.defaults ==> PresetAllowed(t, conversation.owner, t.defaults[conversation.owner]);
  }

  /** Stored space ids pass through cloning unchanged and are all counted: the search over a
      conversation's own spaces is never refused. */
  lemma StoredSpacesAreFound(requests: seq<Request>, c: nat)
    requires c in ServedAll(requests).conversations
    ensures var t := ServedAll(requests);
      var ids := t.conversations[c].spaces;
      Cloned(ids) == ids && Counted(t.spaces, t.conversations[c].owner, ids) == |ids|
  {
    hide ServedAll;
    RunKeepsIntegrity(requests);
    var t := ServedAll(requests);
    var conversation := t.conversations[c];
    assert SpacesOk(t, conversation);
    hide Integral;
    ClonedKeeps(conversation.spaces);
    CountIsLength(t.spaces, conversation.owner, conversation.spaces);
  }

  /** Ids given for one search only are counted exactly if each, zeros aside, is a space of
      the user. */
  lemma GivenSpacesAreFound(t: Tables, user: nat, ids: seq<nat>)
    ensures Counted(t.spaces, user, Cloned(ids)) == |Cloned(ids)| <==>
      forall id :: id in ids && id != 0 ==> id in t.spaces && t.spaces[id] == user
  {
    ClonedExactly(ids);
    CountIsLength(t.spaces, user, Cloned(ids));
    hide Distinct, Cloned, Counted;
  }

  function By(r: Request): nat {
    if r.AddUser? then r.id else r.user
  }

  /** No request of one user touches what is another's, though clean-up statements run over
      whole tables. */
  lemma OtherUsersUntouched(t: Tables, r: Request, other: nat)
    requires By(r) != other
    ensures var t' := Served(t, r);
      && DefaultOf(t', other) == DefaultOf(t, other)
      && (forall id, p: Preset :: p.owner == other ==>
            (id in t.presets && t.presets[id] == p <==> id in t'.presets && t'.presets[id] == p))
      && (forall id :: id in t.spaces && t.spaces[id] == other <==> id in t'.spaces && t'.spaces[id] == other)
      && (forall id, c: Conversation :: c.owner == other ==>
            (id in t.conversations && t.conversations[id] == c <==>
             id in t'.conversations && t'.conversations[id] == c))
  {
    hide Cloned, Filtered, AllOwned, PresetAllowed;
  }
}
