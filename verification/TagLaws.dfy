/** Laws of the tag store, stated on keys: what `resolve` returns and mints, and that staging a
    task's tags leaves exactly the requested keys whether or not it rewrote the links. */
module TagLaws {
  import opened Wrappers
  import opened Text
  import opened Tasks
  import opened Store

  lemma {:induction false} WantedKeys(fold: Fold, names: seq<string>)
    ensures KeysOf(WantedOf(fold, names)) == RequestedKeys(fold, names)
    ensures forall i, j :: 0 <= i < j < |WantedOf(fold, names)| ==> WantedOf(fold, names)[i].0 != WantedOf(fold, names)[j].0
  {
    if names != [] {
      var front, last := names[..|names| - 1], names[|names| - 1];
      WantedKeys(fold, front);
      var before, after := WantedOf(fold, front), WantedOf(fold, names);
      var key := NormalKey(fold, last);
      forall k ensures k in RequestedKeys(fold, names) <==> k in RequestedKeys(fold, front) || k == key {
        if k in RequestedKeys(fold, names) { var i :| 0 <= i < |names| && NormalKey(fold, names[i]) == k; assert i < |front| ==> front[i] == names[i]; }
        if k in RequestedKeys(fold, front) { var i :| 0 <= i < |front| && NormalKey(fold, front[i]) == k; assert names[i] == front[i]; }
        assert NormalKey(fold, names[|names| - 1]) == key;
      }
      if key !in KeysOf(before) {
        forall k ensures k in KeysOf(after) <==> k in KeysOf(before) || k == key {
          if k in KeysOf(before) { var i :| 0 <= i < |before| && before[i].0 == k; assert after[i].0 == k; }
          assert after[|before|].0 == key;
        }
        forall i | 0 <= i < |before| ensures before[i].0 != key { assert before[i].0 in KeysOf(before); }
      }
    }
  }

  lemma WantedEmpty(fold: Fold, names: seq<string>)
    ensures WantedOf(fold, names) == [] <==> names == []
  {
    if names != [] {
      WantedKeys(fold, names);
      assert NormalKey(fold, names[0]) in RequestedKeys(fold, names);
    }
  }

  /** `names[k]` is the first name with its key, and the entry is its key and stripped form. */
  predicate FirstSpelling(fold: Fold, names: seq<string>, k: int, entry: (string, string)) {
    && 0 <= k < |names|
    && entry == (NormalKey(fold, names[k]), Strip(names[k]))
    && forall j :: 0 <= j < k ==> NormalKey(fold, names[j]) != NormalKey(fold, names[k])
  }

  /** The display form kept for a key is the first spelling the caller used. */
  lemma {:induction false} WantedFirstSpelling(fold: Fold, names: seq<string>, i: nat)
    requires i < |WantedOf(fold, names)|
    ensures exists k :: FirstSpelling(fold, names, k, WantedOf(fold, names)[i])
  {
    var front, last := names[..|names| - 1], names[|names| - 1];
    var before := WantedOf(fold, front);
    if i < |before| {
      WantedFirstSpelling(fold, front, i);
      var k :| FirstSpelling(fold, front, k, before[i]);
      assert names[k] == front[k] && forall j :: 0 <= j < k ==> names[j] == front[j];
      assert FirstSpelling(fold, names, k, before[i]) && WantedOf(fold, names)[i] == before[i];
    } else {
      WantedKeys(fold, front);
      forall j | 0 <= j < |names| - 1 ensures NormalKey(fold, names[j]) != NormalKey(fold, last) {
        assert front[j] == names[j];
        assert NormalKey(fold, front[j]) in RequestedKeys(fold, front);
      }
      assert FirstSpelling(fold, names, |names| - 1, WantedOf(fold, names)[i]);
    }
  }

  /** What holds while tags are being minted for `wanted`, starting from `tags`. */
  predicate MintOk(fold: Fold, tags: map<nat, Tag>, v: Vocabulary) {
    && TagsOk(fold, v.tags, v.next)
    && (forall id :: id in tags ==> id in v.tags && v.tags[id] == tags[id])
    && (forall key :: key in v.ids ==> v.ids[key] in v.tags && v.tags[v.ids[key]].nameKey == key)
    && (forall id :: id in v.tags && id !in tags ==> v.tags[id].nameKey in v.ids && v.ids[v.tags[id].nameKey] == id)
  }

  /** Every new tag spells a wanted entry. */
  predicate Minted(before: map<nat, Tag>, after: map<nat, Tag>, wanted: Wanted) {
    forall id :: id in after && id !in before ==> (after[id].nameKey, after[id].name) in wanted
  }

  predicate WantedOk(fold: Fold, wanted: Wanted) {
    forall i :: 0 <= i < |wanted| ==> TagOk(fold, Tag(wanted[i].1, wanted[i].0))
  }

  lemma MintedKeysDistinct(tags: map<nat, Tag>, id: nat, tag: Tag)
    requires TagKeysDistinct(tags) && id !in tags && !HasKey(tags, tag.nameKey)
    ensures TagKeysDistinct(tags[id := tag])
  {
    var grown := tags[id := tag];
    forall a, b | a in grown && b in grown && grown[a].nameKey == grown[b].nameKey ensures a == b {
      assert a in tags ==> (grown[a].nameKey == tag.nameKey ==> HasKey(tags, tag.nameKey));
      assert b in tags ==> (grown[b].nameKey == tag.nameKey ==> HasKey(tags, tag.nameKey));
    }
  }

  lemma MintOne(fold: Fold, tags: map<nat, Tag>, v: Vocabulary, key: string, display: string)
    requires MintOk(fold, tags, v) && TagOk(fold, Tag(display, key)) && !HasKey(v.tags, key)
    ensures MintOk(fold, tags, Vocabulary(v.tags[v.next := Tag(display, key)], v.ids[key := v.next], v.next + 1))
  {
    hide TagOk, TagKeysDistinct;
    assert v.next !in v.tags;
    MintedKeysDistinct(v.tags, v.next, Tag(display, key));
    assert key !in v.ids;
  }

  lemma {:induction false} MintKeeps(fold: Fold, tags: map<nat, Tag>, start: Vocabulary, wanted: Wanted, all: set<string>)
    requires TagsOk(fold, tags, start.next) && WantedOk(fold, wanted) && KeysOf(wanted) <= all
    requires start == Vocabulary(tags, FoundIds(tags, all), start.next)
    ensures MintOk(fold, tags, Mint(start, wanted))
    ensures KeysOf(wanted) <= Mint(start, wanted).ids.Keys <= all
    ensures Minted(tags, Mint(start, wanted).tags, wanted)
    ensures forall key :: key in all && HasKey(Mint(start, wanted).tags, key) ==> key in Mint(start, wanted).ids
    ensures forall key :: key in start.ids ==> key in Mint(start, wanted).ids && Mint(start, wanted).ids[key] == start.ids[key]
    decreases |wanted|
  {
    if wanted != [] {
      var front, last := wanted[..|wanted| - 1], wanted[|wanted| - 1];
      assert wanted[|wanted| - 1].0 in KeysOf(wanted);
      FrontKeys(wanted);
      MintKeeps(fold, tags, start, front, all);
      var v := Mint(start, front);
      if last.0 !in v.ids {
        assert TagOk(fold, Tag(wanted[|wanted| - 1].1, wanted[|wanted| - 1].0));
        MintOne(fold, tags, v, last.0, last.1);
        var after := Mint(start, wanted);
        forall key | key in all && HasKey(after.tags, key) ensures key in after.ids {
          var id :| id in after.tags && after.tags[id].nameKey == key;
          if id != v.next { assert HasKey(v.tags, key); }
        }
      }
    }
  }

  lemma FrontKeys(wanted: Wanted)
    requires wanted != []
    ensures KeysOf(wanted) == KeysOf(wanted[..|wanted| - 1]) + {wanted[|wanted| - 1].0}
  {
    var front, last := wanted[..|wanted| - 1], wanted[|wanted| - 1];
    forall k | k in KeysOf(wanted) ensures k in KeysOf(front) || k == last.0 {
      var i :| 0 <= i < |wanted| && wanted[i].0 == k;
      if i < |front| { assert front[i].0 == k; }
    }
    forall k | k in KeysOf(front) ensures k in KeysOf(wanted) {
      var i :| 0 <= i < |front| && front[i].0 == k;
      assert wanted[i].0 == k;
    }
    assert wanted[|wanted| - 1].0 == last.0;
  }

  lemma WantedIsOk(fold: Fold, names: seq<string>)
    requires NoneBlank(names)
    ensures WantedOk(fold, WantedOf(fold, names))
  {
    var wanted := WantedOf(fold, names);
    forall i | 0 <= i < |wanted| ensures TagOk(fold, Tag(wanted[i].1, wanted[i].0)) {
      WantedFirstSpelling(fold, names, i);
      var k :| FirstSpelling(fold, names, k, wanted[i]);
      StripLaws(names[k]);
      StripLaws(Strip(names[k]));
    }
  }

  /** `resolve` on non-blank names: it answers exactly the normalised keys; tags there were keep
      their ids and spellings; keys stay distinct; each tag it mints is the answer for its key, in
      the first spelling the caller used. */
  lemma ResolveLaws(fold: Fold, tags: map<nat, Tag>, next: nat, names: seq<string>)
    requires TagsOk(fold, tags, next) && NoneBlank(names)
    ensures
      var v := Resolved(fold, tags, next, names);
      && v.ids.Keys == RequestedKeys(fold, names)
      && TagsOk(fold, v.tags, v.next)
      && (forall id :: id in tags ==> id in v.tags && v.tags[id] == tags[id])
      && (forall key :: key in v.ids ==> v.ids[key] in v.tags && v.tags[v.ids[key]].nameKey == key)
      && (forall id :: id in v.tags && id !in tags ==>
            && v.tags[id].nameKey in v.ids && v.ids[v.tags[id].nameKey] == id
            && exists k :: FirstSpelling(fold, names, k, (v.tags[id].nameKey, v.tags[id].name)))
  {
    var wanted, v := WantedOf(fold, names), Resolved(fold, tags, next, names);
    WantedKeys(fold, names);
    WantedIsOk(fold, names);
    MintKeeps(fold, tags, Vocabulary(tags, FoundIds(tags, KeysOf(wanted)), next), wanted, KeysOf(wanted));
    forall id | id in v.tags && id !in tags
      ensures exists k :: FirstSpelling(fold, names, k, (v.tags[id].nameKey, v.tags[id].name))
    {
      var i :| 0 <= i < |wanted| && wanted[i] == (v.tags[id].nameKey, v.tags[id].name);
      WantedFirstSpelling(fold, names, i);
    }
  }

  lemma {:induction false} NothingToMint(start: Vocabulary, wanted: Wanted)
    requires KeysOf(wanted) <= start.ids.Keys
    ensures Mint(start, wanted) == start
    decreases |wanted|
  {
    if wanted != [] {
      FrontKeys(wanted);
      NothingToMint(start, wanted[..|wanted| - 1]);
    }
  }

  /** When the display spellings already match, every requested key is a tag of the task. */
  lemma SameSpellingsSameKeys(fold: Fold, t: Tables, taskId: nat, names: seq<string>)
    requires StoreOk(fold, t) && NamesFor(t, taskId) == Spellings(names)
    ensures KeysFor(t, taskId) == RequestedKeys(fold, names)
    ensures forall key :: key in RequestedKeys(fold, names) ==> HasKey(t.tags, key)
  {
    forall key | key in RequestedKeys(fold, names) ensures key in KeysFor(t, taskId) && HasKey(t.tags, key) {
      var i :| 0 <= i < |names| && NormalKey(fold, names[i]) == key;
      StripLaws(names[i]);
      assert Strip(names[i]) in NamesFor(t, taskId);
      var l :| l in t.links && l.0 == taskId && l.1 in t.tags && t.tags[l.1].name == Strip(names[i]);
      assert TagOk(fold, t.tags[l.1]);
    }
    forall key | key in KeysFor(t, taskId) ensures key in RequestedKeys(fold, names) {
      var l :| l in t.links && l.0 == taskId && l.1 in t.tags && t.tags[l.1].nameKey == key;
      assert TagOk(fold, t.tags[l.1]);
      assert t.tags[l.1].name in Spellings(names);
      var i :| 0 <= i < |names| && Strip(names[i]) == t.tags[l.1].name;
      StripLaws(names[i]);
      assert NormalKey(fold, names[i]) == key;
    }
  }

  lemma RelinkedKeys(t: Tables, after: Tables, taskId: nat, v: Vocabulary)
    requires after.tags == v.tags && after.links == Relinked(t.links, taskId, v.ids.Values)
    requires LinksHold(t) && forall id :: id in t.tags ==> id in v.tags && v.tags[id] == t.tags[id]
    requires forall key :: key in v.ids ==> v.ids[key] in v.tags && v.tags[v.ids[key]].nameKey == key
    ensures KeysFor(after, taskId) == v.ids.Keys
    ensures forall other :: other != taskId ==> KeysFor(after, other) == KeysFor(t, other)
  {
    forall key | key in v.ids ensures key in KeysFor(after, taskId) {
      assert v.ids[key] in v.ids.Values;
      assert (taskId, v.ids[key]) in after.links;
    }
    forall other | other != taskId ensures KeysFor(after, other) == KeysFor(t, other) {
      forall key | key in KeysFor(t, other) ensures key in KeysFor(after, other) {
        var l :| l in t.links && l.0 == other && l.1 in t.tags && t.tags[l.1].nameKey == key;
        assert l in after.links;
      }
    }
  }

  /** What staging leaves for replay to find, besides the task's own links. */
  ghost predicate StagedOk(fold: Fold, t: Tables, taskId: nat, names: seq<string>, after: Tables, events: seq<Event>) {
    && StoreOk(fold, after) && after.tasks == t.tasks && after.outbox == t.outbox
    && KeysFor(after, taskId) == RequestedKeys(fold, names)
    && (forall other :: other != taskId ==> KeysFor(after, other) == KeysFor(t, other))
    && (forall key :: HasKey(after.tags, key) <==> HasKey(t.tags, key) || key in RequestedKeys(fold, names))
    && (events == [] ==> after == t)
    && (events != [] ==>
          events == [TaskTagsChanged(taskId, Spellings(names), Spellings(names) - NamesFor(t, taskId), NamesFor(t, taskId) - Spellings(names))])
  }

  /** Tag replacement on keys: after staging, the task carries exactly the requested keys, whether
      the spellings matched (nothing is written or minted) or the links were rewritten; no other
      task's keys move, and the vocabulary gains exactly the requested keys. */
  lemma StagingLaws(fold: Fold, t: Tables, taskId: nat, names: seq<string>)
    requires StoreOk(fold, t) && taskId in t.tasks
    ensures StagedTags(fold, t, taskId, Some(names)).Some? <==> NoneBlank(names)
    ensures NoneBlank(names) ==>
      var staged := StagedTags(fold, t, taskId, Some(names)).value;
      StagedOk(fold, t, taskId, names, staged.0, staged.1)
  {
    if NoneBlank(names) {
      if NamesFor(t, taskId) == Spellings(names) {
        SameSpellings(fold, t, taskId, names);
      } else {
        NewSpellings(fold, t, taskId, names);
      }
    }
  }

  lemma SameSpellings(fold: Fold, t: Tables, taskId: nat, names: seq<string>)
    requires StoreOk(fold, t) && taskId in t.tasks && NoneBlank(names) && NamesFor(t, taskId) == Spellings(names)
    ensures StagedTags(fold, t, taskId, Some(names)) == Some((t, [])) && StagedOk(fold, t, taskId, names, t, [])
  {
    SameSpellingsSameKeys(fold, t, taskId, names);
    var wanted := WantedOf(fold, names);
    WantedKeys(fold, names);
    NothingToMint(Vocabulary(t.tags, FoundIds(t.tags, KeysOf(wanted)), t.next), wanted);
  }

  lemma NewSpellings(fold: Fold, t: Tables, taskId: nat, names: seq<string>)
    requires StoreOk(fold, t) && taskId in t.tasks && NoneBlank(names) && NamesFor(t, taskId) != Spellings(names)
    ensures
      var staged := StagedTags(fold, t, taskId, Some(names)).value;
      StagedOk(fold, t, taskId, names, staged.0, staged.1)
  {
    var v := Resolved(fold, t.tags, t.next, names);
    ResolveLaws(fold, t.tags, t.next, names);
    var after := StagedTags(fold, t, taskId, Some(names)).value.0;
    RelinkedKeys(t, after, taskId, v);
    VocabularyGrows(fold, t.tags, v);
    MintNext(Vocabulary(t.tags, FoundIds(t.tags, KeysOf(WantedOf(fold, names))), t.next), WantedOf(fold, names));
    assert LinksHold(after);
  }

  lemma {:induction false} MintNext(start: Vocabulary, wanted: Wanted)
    ensures Mint(start, wanted).next >= start.next
    decreases |wanted|
  {
    if wanted != [] { MintNext(start, wanted[..|wanted| - 1]); }
  }

  lemma VocabularyGrows(fold: Fold, tags: map<nat, Tag>, v: Vocabulary)
    requires forall id :: id in tags ==> id in v.tags && v.tags[id] == tags[id]
    requires forall key :: key in v.ids ==> v.ids[key] in v.tags && v.tags[v.ids[key]].nameKey == key
    requires forall id :: id in v.tags && id !in tags ==> v.tags[id].nameKey in v.ids
    ensures forall key :: HasKey(v.tags, key) <==> HasKey(tags, key) || key in v.ids
  {
    forall key | HasKey(v.tags, key) ensures HasKey(tags, key) || key in v.ids {
      var id :| id in v.tags && v.tags[id].nameKey == key;
      assert id in tags ==> HasKey(tags, key);
    }
    forall key | HasKey(tags, key) || key in v.ids ensures HasKey(v.tags, key) {
      if HasKey(tags, key) { var id :| id in tags && tags[id].nameKey == key; assert v.tags[id].nameKey == key; }
    }
  }
}
