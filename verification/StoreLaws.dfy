/** What the use-cases' row changes do to the law of the store, and which constraint they violate:
    on a lawful store only a taken title key can stop a commit. */
module StoreLaws {
  import opened Wrappers
  import opened Tasks
  import opened Store
  import opened TagLaws
  import opened UseCases

  lemma LawfulRow(fold: Fold, t: Tables, id: nat)
    requires StoreOk(fold, t) && id in t.tasks
    ensures t.tasks[id].id == id && KeyLaw(fold, t.tasks[id]) && TagsOk(fold, t.tags, t.next)
  {
  }

  lemma FreshRow(fold: Fold, t: Tables)
    requires StoreOk(fold, t)
    ensures t.next !in t.tasks && LinksHold(t)
  {
  }

  lemma PutKeysDistinct(tasks: map<nat, Task>, task: Task)
    requires TitleKeysDistinct(tasks)
    ensures TitleKeysDistinct(tasks[task.id := task]) <==> KeyFree(tasks, task.id, task.titleKey)
  {
    var after := tasks[task.id := task];
    if KeyFree(tasks, task.id, task.titleKey) {
      forall a, b | a in after && b in after && after[a].titleKey == after[b].titleKey ensures a == b {
        assert a != task.id ==> after[a] == tasks[a];
        assert b != task.id ==> after[b] == tasks[b];
      }
    } else {
      var other :| other in tasks && other != task.id && tasks[other].titleKey == task.titleKey;
      assert after[other].titleKey == after[task.id].titleKey;
    }
  }

  /** An edited row of a lawful store: lawful again, or its title key is taken. */
  lemma Overwriting(fold: Fold, t: Tables, task: Task)
    requires StoreOk(fold, t) && task.id in t.tasks && KeyLaw(fold, task)
    ensures KeyFree(t.tasks, task.id, task.titleKey) ==> StoreOk(fold, Overwrite(t, task))
    ensures Violation(Overwrite(t, task)) == if KeyFree(t.tasks, task.id, task.titleKey) then None else Some(TitleKeyTaken)
  {
    hide TitleKeysDistinct, TagKeysDistinct, KeyFree, KeyLaw;
    PutKeysDistinct(t.tasks, task);
  }

  /** A new row, under a fresh id. */
  lemma Inserting(fold: Fold, t: Tables, task: Task)
    requires StoreOk(fold, t) && task.id == t.next && KeyLaw(fold, task)
    ensures KeyFree(t.tasks, task.id, task.titleKey) ==> StoreOk(fold, Insert(t, task))
    ensures Violation(Insert(t, task)) == if KeyFree(t.tasks, task.id, task.titleKey) then None else Some(TitleKeyTaken)
  {
    hide TitleKeysDistinct, TagKeysDistinct, KeyFree, KeyLaw;
    PutKeysDistinct(t.tasks, task);
  }

  lemma Publishing(fold: Fold, t: Tables, events: seq<Event>)
    ensures StoreOk(fold, Publish(t, events)) <==> StoreOk(fold, t)
    ensures Violation(Publish(t, events)) == Violation(t)
  {
  }

  lemma Dropping(fold: Fold, t: Tables, id: nat)
    requires StoreOk(fold, t)
    ensures StoreOk(fold, DropTask(t, id)) && StoreOk(fold, DropTag(t, id))
  {
  }

  /** Staged tags leave a lawful store with the same tasks and outbox. */
  lemma Staging(fold: Fold, t: Tables, taskId: nat, names: Option<seq<string>>)
    requires StoreOk(fold, t) && taskId in t.tasks
    ensures StagedTags(fold, t, taskId, names).Some? ==>
      var after := StagedTags(fold, t, taskId, names).value.0;
      StoreOk(fold, after) && after.tasks == t.tasks && after.outbox == t.outbox && Violation(after).None?
    ensures names.None? ==> StagedTags(fold, t, taskId, names) == Some((t, []))
  {
    hide TasksOk, LinksHold, Violation, Resolved, Relinked;
    StoreHasNoViolation(fold, t);
    if names.Some? {
      StagingLaws(fold, t, taskId, names.value);
      if NoneBlank(names.value) { StoreHasNoViolation(fold, StagedTags(fold, t, taskId, names).value.0); }
    }
  }

  /** Committing a row that is already there as it is violates nothing. */
  lemma Recommitting(fold: Fold, t: Tables, task: Task, events: seq<Event>)
    requires StoreOk(fold, t) && task.id in t.tasks && t.tasks[task.id] == task
    ensures Overwrite(t, task) == t && Violation(Publish(t, events)).None?
  {
    assert t.tasks[task.id := task] == t.tasks;
    StoreHasNoViolation(fold, t);
    Publishing(fold, t, events);
  }

  lemma UnheldTag(t: Tables, id: nat)
    requires TaskCount(t, id) == 0
    ensures forall l :: l in t.links ==> l.1 != id
    ensures DropTag(t, id).links == t.links
  {
    var holders := set l | l in t.links && l.1 == id;
    assert holders == {};
    forall l | l in t.links ensures l.1 != id { assert l !in holders; }
  }

  lemma UnheldKeys(fold: Fold, t: Tables, id: nat, task: nat)
    requires StoreOk(fold, t) && id in t.tags && (forall l :: l in t.links ==> l.1 != id) && DropTag(t, id).links == t.links
    ensures KeysFor(DropTag(t, id), task) == KeysFor(t, task) && t.tags[id].nameKey !in KeysFor(t, task)
  {
    var after := DropTag(t, id);
    forall key | key in KeysFor(t, task) ensures key in KeysFor(after, task) && key != t.tags[id].nameKey {
      var l :| l in t.links && l.0 == task && l.1 in t.tags && t.tags[l.1].nameKey == key;
      assert l in after.links && l.1 in after.tags;
    }
  }

  lemma OtherKeys(t: Tables, id: nat, other: nat)
    requires other != id
    ensures KeysFor(DropTask(t, id), other) == KeysFor(t, other)
  {
    var after := DropTask(t, id);
    forall key | key in KeysFor(t, other) ensures key in KeysFor(after, other) {
      var l :| l in t.links && l.0 == other && l.1 in t.tags && t.tags[l.1].nameKey == key;
      assert l in after.links;
    }
  }
}
