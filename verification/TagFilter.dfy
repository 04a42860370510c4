/** The tag filter of the task list: AND by counting distinct tags per task, OR by any match. */
module TagFilter {
  import opened Store

  /** The join rows whose tag has one of the keys. */
  function MatchingTags(t: Tables, taskId: nat, keys: set<string>): set<nat> {
    set l | l in t.links && l.0 == taskId && l.1 in t.tags && t.tags[l.1].nameKey in keys :: l.1
  }

  /** `task_ids_matching`: group by task, and for AND keep the groups whose distinct-tag count is
      the number of distinct keys. No keys match nothing. */
  function TaskIdsMatching(t: Tables, nameKeys: seq<string>, matchAll: bool): set<nat> {
    var keys := set k | k in nameKeys;
    if keys == {} then {}
    else
      set l | l in t.links && l.1 in t.tags && t.tags[l.1].nameKey in keys
              && (matchAll ==> |MatchingTags(t, l.0, keys)| == |keys|) :: l.0
  }

  /** With unique keys, a task's matching tags are as many as the keys they cover. */
  lemma {:induction false} MatchingCount(t: Tables, taskId: nat, keys: set<string>)
    requires TagKeysDistinct(t.tags)
    ensures |MatchingTags(t, taskId, keys)| == |keys * KeysFor(t, taskId)|
    decreases keys
  {
    if keys == {} {
      assert MatchingTags(t, taskId, keys) == {};
    } else {
      var key :| key in keys;
      var rest := keys - {key};
      MatchingCount(t, taskId, rest);
      if key in KeysFor(t, taskId) {
        var l :| l in t.links && l.0 == taskId && l.1 in t.tags && t.tags[l.1].nameKey == key;
        assert MatchingTags(t, taskId, keys) == MatchingTags(t, taskId, rest) + {l.1};
        assert keys * KeysFor(t, taskId) == rest * KeysFor(t, taskId) + {key};
      } else {
        assert MatchingTags(t, taskId, keys) == MatchingTags(t, taskId, rest);
        assert keys * KeysFor(t, taskId) == rest * KeysFor(t, taskId);
      }
    }
  }

  lemma FullCount(keys: set<string>, held: set<string>)
    ensures |keys * held| == |keys| <==> keys <= held
  {
    if keys <= held {
      assert keys * held == keys;
    } else {
      assert keys == keys * held + (keys - held);
      assert keys - held != {};
    }
  }

  /** Counting is correct: over any join table whose tags have distinct keys, AND returns exactly
      the tasks carrying every requested key and OR exactly those carrying some requested key; no
      keys match nothing either way. */
  lemma FilterIsExact(t: Tables, nameKeys: seq<string>, taskId: nat)
    requires TagKeysDistinct(t.tags)
    ensures taskId in TaskIdsMatching(t, nameKeys, true) <==> nameKeys != [] && forall k :: k in nameKeys ==> k in KeysFor(t, taskId)
    ensures taskId in TaskIdsMatching(t, nameKeys, false) <==> exists k :: k in nameKeys && k in KeysFor(t, taskId)
  {
    var keys := set k | k in nameKeys;
    if nameKeys != [] { assert nameKeys[0] in keys; }
    MatchingCount(t, taskId, keys);
    FullCount(keys, KeysFor(t, taskId));
    if k :| k in nameKeys && k in KeysFor(t, taskId) {
      var l :| l in t.links && l.0 == taskId && l.1 in t.tags && t.tags[l.1].nameKey == k;
      assert k in keys;
    }
  }
}
