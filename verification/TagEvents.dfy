/** When `TaskTagsChanged` is staged. It is promised when a task's tag set differs from what it was;
    the code compares display spellings, so it also fires for a set that stays as it is. Here is
    exactly when, an input for which it does, and that repeating such a request repeats the event. */
module TagEvents {
  import opened Wrappers
  import opened Text
  import opened Tasks
  import opened Store
  import opened TagLaws

  /** The name is spelt as the tag with its key is stored. */
  predicate StoredAs(fold: Fold, tags: map<nat, Tag>, name: string) {
    exists id :: id in tags && tags[id] == Tag(Strip(name), NormalKey(fold, name))
  }

  predicate AllStoredAs(fold: Fold, tags: map<nat, Tag>, names: seq<string>) {
    forall i :: 0 <= i < |names| ==> StoredAs(fold, tags, names[i])
  }

  lemma SpellingsAreStored(fold: Fold, t: Tables, id: nat, names: seq<string>)
    requires StoreOk(fold, t) && NamesFor(t, id) == Spellings(names)
    ensures AllStoredAs(fold, t.tags, names)
  {
    hide TagKeysDistinct, TitleKeysDistinct;
    forall i | 0 <= i < |names| ensures StoredAs(fold, t.tags, names[i]) {
      assert Strip(names[i]) in NamesFor(t, id);
      var l :| l in t.links && l.0 == id && l.1 in t.tags && t.tags[l.1].name == Strip(names[i]);
      assert TagOk(fold, t.tags[l.1]);
      StripLaws(names[i]);
    }
  }

  /** Two tags of one key are one tag. */
  lemma OneTagPerKey(tags: map<nat, Tag>, a: nat, b: nat)
    requires TagKeysDistinct(tags) && a in tags && b in tags && tags[a].nameKey == tags[b].nameKey
    ensures a == b
  {
  }

  lemma StoredAreSpellings(fold: Fold, t: Tables, id: nat, names: seq<string>)
    requires StoreOk(fold, t) && KeysFor(t, id) == RequestedKeys(fold, names) && AllStoredAs(fold, t.tags, names)
    ensures NamesFor(t, id) == Spellings(names)
  {
    hide TitleKeysDistinct, TagKeysDistinct;
    forall name | name in NamesFor(t, id) ensures name in Spellings(names) {
      var l :| l in t.links && l.0 == id && l.1 in t.tags && t.tags[l.1].name == name;
      assert t.tags[l.1].nameKey in KeysFor(t, id);
      var i :| 0 <= i < |names| && NormalKey(fold, names[i]) == t.tags[l.1].nameKey;
      var u :| u in t.tags && t.tags[u] == Tag(Strip(names[i]), NormalKey(fold, names[i]));
      OneTagPerKey(t.tags, u, l.1);
    }
    forall i | 0 <= i < |names| ensures Strip(names[i]) in NamesFor(t, id) {
      assert NormalKey(fold, names[i]) in RequestedKeys(fold, names);
      var l :| l in t.links && l.0 == id && l.1 in t.tags && t.tags[l.1].nameKey == NormalKey(fold, names[i]);
      var u :| u in t.tags && t.tags[u] == Tag(Strip(names[i]), NormalKey(fold, names[i]));
      OneTagPerKey(t.tags, u, l.1);
    }
  }

  /** The events of staging these names. */
  function TagEventsOf(fold: Fold, t: Tables, id: nat, names: seq<string>): seq<Event>
    requires TagKeysDistinct(t.tags) && NoneBlank(names)
  {
    StagedTags(fold, t, id, Some(names)).value.1
  }

  function AfterTags(fold: Fold, t: Tables, id: nat, names: seq<string>): Tables
    requires TagKeysDistinct(t.tags) && NoneBlank(names)
  {
    StagedTags(fold, t, id, Some(names)).value.0
  }

  /** The event is staged exactly when the tag set changes or some name is not spelt as its tag is
      stored. The promise holds one way: a changed set is always announced. */
  lemma EventIff(fold: Fold, t: Tables, id: nat, names: seq<string>)
    requires StoreOk(fold, t) && id in t.tasks && NoneBlank(names)
    ensures TagEventsOf(fold, t, id, names) != [] <==>
      KeysFor(AfterTags(fold, t, id, names), id) != KeysFor(t, id) || !AllStoredAs(fold, t.tags, names)
  {
    hide TitleKeysDistinct, TagOk, KeysFor, NamesFor, RequestedKeys, Spellings, AllStoredAs, Resolved;
    StagingLaws(fold, t, id, names);
    if NamesFor(t, id) == Spellings(names) {
      SameSpellingsSameKeys(fold, t, id, names);
      SpellingsAreStored(fold, t, id, names);
    } else if KeysFor(t, id) == RequestedKeys(fold, names) && AllStoredAs(fold, t.tags, names) {
      StoredAreSpellings(fold, t, id, names);
    }
  }

  /** A false alarm: the request asks for the tags the task has, so its set stays as it was, and
      the event is staged all the same, exactly when some name is not the stored spelling. */
  lemma FalseAlarmIff(fold: Fold, t: Tables, id: nat, names: seq<string>)
    requires StoreOk(fold, t) && id in t.tasks && NoneBlank(names) && RequestedKeys(fold, names) == KeysFor(t, id)
    ensures KeysFor(AfterTags(fold, t, id, names), id) == KeysFor(t, id)
    ensures TagEventsOf(fold, t, id, names) != [] <==> !AllStoredAs(fold, t.tags, names)
  {
    hide TagOk, KeysFor, RequestedKeys, AllStoredAs, Resolved, Spellings, NamesFor;
    StagingLaws(fold, t, id, names);
    EventIff(fold, t, id, names);
  }

  lemma LawfulAfter(fold: Fold, t: Tables, id: nat, names: seq<string>)
    requires StoreOk(fold, t) && id in t.tasks && NoneBlank(names)
    ensures
      var after := AfterTags(fold, t, id, names);
      && StoreOk(fold, after) && after.tasks == t.tasks && KeysFor(after, id) == RequestedKeys(fold, names)
      && (forall tag :: tag in t.tags ==> tag in after.tags && after.tags[tag] == t.tags[tag])
  {
    hide TagOk, KeysFor, RequestedKeys, Spellings, FirstSpelling;
    StagingLaws(fold, t, id, names);
    ResolveLaws(fold, t.tags, t.next, names);
  }

  /** `resolve` keeps the stored spelling, so a name that is not the spelling of a tag already
      there does not become it. */
  lemma SpellingsStand(fold: Fold, t: Tables, id: nat, names: seq<string>, name: string)
    requires StoreOk(fold, t) && id in t.tasks && NoneBlank(names) && HasKey(t.tags, NormalKey(fold, name))
    ensures StoredAs(fold, AfterTags(fold, t, id, names).tags, name) <==> StoredAs(fold, t.tags, name)
  {
    hide TitleKeysDistinct, TagOk, AfterTags, KeysFor, RequestedKeys, TagKeysDistinct, NormalKey, Strip;
    LawfulAfter(fold, t, id, names);
    var after := AfterTags(fold, t, id, names).tags;
    var w :| w in t.tags && t.tags[w].nameKey == NormalKey(fold, name);
    if StoredAs(fold, after, name) {
      var u :| u in after && after[u] == Tag(Strip(name), NormalKey(fold, name));
      OneTagPerKey(after, u, w);
    }
  }

  /** Spelt, before the call, as the tag will be stored after it: as the stored tag where there is
      one with the key, and otherwise as the first name of the request with that key. */
  ghost predicate WellSpelt(fold: Fold, tags: map<nat, Tag>, names: seq<string>, i: nat)
    requires i < |names|
  {
    if HasKey(tags, NormalKey(fold, names[i])) then StoredAs(fold, tags, names[i])
    else exists k :: FirstSpelling(fold, names, k, (NormalKey(fold, names[i]), Strip(names[i])))
  }

  ghost predicate AllWellSpelt(fold: Fold, tags: map<nat, Tag>, names: seq<string>) {
    forall i :: 0 <= i < |names| ==> WellSpelt(fold, tags, names, i)
  }

  /** A key has one first spelling. */
  lemma OneFirstSpelling(fold: Fold, names: seq<string>, j: nat, k: nat, a: (string, string), b: (string, string))
    requires FirstSpelling(fold, names, j, a) && FirstSpelling(fold, names, k, b) && a.0 == b.0
    ensures a == b
  {
    assert j == k;
  }

  /** A name whose key is new becomes the stored spelling exactly when it is the first of its key. */
  lemma NewSpelling(fold: Fold, t: Tables, id: nat, names: seq<string>, i: nat)
    requires StoreOk(fold, t) && id in t.tasks && NoneBlank(names) && i < |names| && !HasKey(t.tags, NormalKey(fold, names[i]))
    ensures StoredAs(fold, AfterTags(fold, t, id, names).tags, names[i]) <==> WellSpelt(fold, t.tags, names, i)
  {
    hide TitleKeysDistinct, TagKeysDistinct, TagOk, KeysFor, NamesFor, Spellings, NormalKey, Strip, FirstSpelling, Resolved, LinksHold;
    var key, v := NormalKey(fold, names[i]), Resolved(fold, t.tags, t.next, names);
    NewIsMinted(fold, t, id, names, i);
    ResolveLaws(fold, t.tags, t.next, names);
    assert key in v.ids;
    var u := v.ids[key];
    assert u !in t.tags;
    var k :| FirstSpelling(fold, names, k, (v.tags[u].nameKey, v.tags[u].name));
    if StoredAs(fold, v.tags, names[i]) {
      var w :| w in v.tags && v.tags[w] == Tag(Strip(names[i]), key);
      OneTagPerKey(v.tags, u, w);
    }
    if WellSpelt(fold, t.tags, names, i) {
      var j :| FirstSpelling(fold, names, j, (key, Strip(names[i])));
      assert k >= 0 && j >= 0 by { FirstInRange(fold, names, k, (v.tags[u].nameKey, v.tags[u].name)); FirstInRange(fold, names, j, (key, Strip(names[i]))); }
      OneFirstSpelling(fold, names, j, k, (key, Strip(names[i])), (v.tags[u].nameKey, v.tags[u].name));
      assert v.tags[u] == Tag(Strip(names[i]), key);
    }
  }

  lemma FirstInRange(fold: Fold, names: seq<string>, k: int, entry: (string, string))
    requires FirstSpelling(fold, names, k, entry)
    ensures 0 <= k < |names|
  {
  }

  /** With a new key the spellings cannot match, so what `resolve` mints is what is stored. */
  lemma NewIsMinted(fold: Fold, t: Tables, id: nat, names: seq<string>, i: nat)
    requires StoreOk(fold, t) && id in t.tasks && NoneBlank(names) && i < |names| && !HasKey(t.tags, NormalKey(fold, names[i]))
    ensures AfterTags(fold, t, id, names).tags == Resolved(fold, t.tags, t.next, names).tags
    ensures NormalKey(fold, names[i]) in RequestedKeys(fold, names)
  {
    hide TitleKeysDistinct, TagKeysDistinct, TagOk, KeysFor, Resolved, LinksHold;
    if NamesFor(t, id) == Spellings(names) { SameSpellingsSameKeys(fold, t, id, names); }
  }

  /** What the tables store after the call, said of the tables before it. */
  lemma StoredAfterIff(fold: Fold, t: Tables, id: nat, names: seq<string>)
    requires StoreOk(fold, t) && id in t.tasks && NoneBlank(names)
    ensures AllStoredAs(fold, AfterTags(fold, t, id, names).tags, names) <==> AllWellSpelt(fold, t.tags, names)
  {
    hide StoreOk, AfterTags, StoredAs, NormalKey, NoneBlank, HasKey, FirstSpelling;
    assert TagKeysDistinct(t.tags) by { LawfulTags(fold, t); }
    forall i | 0 <= i < |names|
      ensures StoredAs(fold, AfterTags(fold, t, id, names).tags, names[i]) <==> WellSpelt(fold, t.tags, names, i)
    {
      if HasKey(t.tags, NormalKey(fold, names[i])) {
        SpellingsStand(fold, t, id, names, names[i]);
      } else {
        NewSpelling(fold, t, id, names, i);
      }
    }
  }

  lemma LawfulTags(fold: Fold, t: Tables)
    requires StoreOk(fold, t)
    ensures TagKeysDistinct(t.tags)
  {
  }

  /** Making a request again stages the event again exactly when some name of the first was not well
      spelt for the tables it met; the tag keys stay either way. */
  lemma RepeatIff(fold: Fold, t: Tables, id: nat, names: seq<string>)
    requires StoreOk(fold, t) && id in t.tasks && NoneBlank(names)
    ensures
      var after := AfterTags(fold, t, id, names);
      && TagKeysDistinct(after.tags)
      && KeysFor(AfterTags(fold, after, id, names), id) == KeysFor(after, id)
      && (TagEventsOf(fold, after, id, names) != [] <==> !AllWellSpelt(fold, t.tags, names))
  {
    hide TagOk, KeysFor, RequestedKeys, AllStoredAs, AllWellSpelt, AfterTags, TagEventsOf, TasksOk, LinksHold;
    var after := AfterTags(fold, t, id, names);
    LawfulAfter(fold, t, id, names);
    StoredAfterIff(fold, t, id, names);
    FalseAlarmIff(fold, after, id, names);
  }

  /** A false alarm goes off again each time the request is repeated. */
  lemma FalseAlarmRepeats(fold: Fold, t: Tables, id: nat, names: seq<string>)
    requires StoreOk(fold, t) && id in t.tasks && NoneBlank(names)
    requires RequestedKeys(fold, names) == KeysFor(t, id) && !AllStoredAs(fold, t.tags, names)
    ensures
      var after := AfterTags(fold, t, id, names);
      && TagKeysDistinct(after.tags) && StoreOk(fold, after)
      && KeysFor(after, id) == KeysFor(t, id) && !AllStoredAs(fold, after.tags, names)
      && TagEventsOf(fold, t, id, names) != [] && TagEventsOf(fold, after, id, names) != []
  {
    hide TagOk, AfterTags, TagEventsOf, StoredAs, AllWellSpelt, NormalKey, TitleKeysDistinct;
    FalseAlarmIff(fold, t, id, names);
    RepeatIff(fold, t, id, names);
    StoredAfterIff(fold, t, id, names);
    LawfulAfter(fold, t, id, names);
    var i :| 0 <= i < |names| && !StoredAs(fold, t.tags, names[i]);
    assert NormalKey(fold, names[i]) in KeysFor(t, id);
    SpellingsStand(fold, t, id, names, names[i]);
  }

  /** What the event calls the task's tags is the new set, under its stored names, exactly when
      every name was well spelt for the tables the call met. */
  lemma EventNamesIff(fold: Fold, t: Tables, id: nat, names: seq<string>)
    requires StoreOk(fold, t) && id in t.tasks && NoneBlank(names)
    ensures
      var after := AfterTags(fold, t, id, names);
      Spellings(names) == NamesFor(after, id) <==> AllWellSpelt(fold, t.tags, names)
  {
    hide TagOk, AfterTags, KeysFor, RequestedKeys, AllStoredAs, AllWellSpelt, Spellings, NamesFor, TitleKeysDistinct, TagKeysDistinct;
    var after := AfterTags(fold, t, id, names);
    LawfulAfter(fold, t, id, names);
    StoredAfterIff(fold, t, id, names);
    if NamesFor(after, id) == Spellings(names) { SpellingsAreStored(fold, after, id, names); }
    if AllStoredAs(fold, after.tags, names) { StoredAreSpellings(fold, after, id, names); }
  }

  // ----- An input -----

  /** One task, tagged `Urgent`. */
  function Tagged(fold: Fold): Tables {
    Tables(map[0 := Task(0, "Fix", fold("Fix"), None, "new", 0)], map[1 := Tag("Urgent", fold("Urgent"))], {(0, 1)}, [], 2)
  }

  lemma PlainWords()
    ensures Strip("Fix") == "Fix" && Strip("Urgent") == "Urgent" && Strip("urgent") == "urgent"
    ensures NonBlank("Urgent") && NonBlank("urgent") && "Urgent" != "urgent"
  {
    assert !IsSpace("Urgent"[0]) && !IsSpace("urgent"[0]) && !IsSpace("Fix"[0]);
    assert "Urgent"[0] != "urgent"[0];
  }

  lemma TaggedIsOk(fold: Fold)
    requires fold("Fix") != ""
    ensures StoreOk(fold, Tagged(fold)) && KeysFor(Tagged(fold), 0) == {fold("Urgent")}
  {
    hide Strip;
    PlainWords();
    var t := Tagged(fold);
    assert KeysFor(t, 0) == {fold("Urgent")} by { assert (0, 1) in t.links; }
  }

  /** Asking for `urgent` on a task tagged `Urgent` leaves its tags alone and announces a change. */
  lemma UrgentAgain(fold: Fold)
    requires fold("Urgent") == fold("urgent") && fold("Fix") != ""
    ensures
      var t := Tagged(fold);
      && TagKeysDistinct(t.tags) && NoneBlank(["urgent"])
      && TagEventsOf(fold, t, 0, ["urgent"]) != []
      && KeysFor(AfterTags(fold, t, 0, ["urgent"]), 0) == KeysFor(t, 0)
  {
    hide Strip, TagEventsOf, AfterTags, KeysFor;
    PlainWords();
    var t, names := Tagged(fold), ["urgent"];
    TaggedIsOk(fold);
    assert NoneBlank(names);
    assert RequestedKeys(fold, names) == {fold("Urgent")} by { assert NormalKey(fold, names[0]) == fold("Urgent"); }
    assert !StoredAs(fold, t.tags, names[0]);
    FalseAlarmIff(fold, t, 0, names);
  }
}
