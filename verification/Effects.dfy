/** What each use-case does for its caller, read off the tables before and after: when exactly it
    succeeds, the row and the tag keys it leaves, and that it leaves everything else alone. */
module Effects {
  import opened Wrappers
  import opened Text
  import opened Definitions
  import opened Engine
  import opened Tasks
  import opened Store
  import opened TagLaws
  import opened StoreLaws
  import opened UseCases

  /** The engine's verdicts on the full count, however little of it was fetched. */
  lemma VerdictsAreEager(t: Tables, d: Definition, fromStatus: string, toStatus: string, status: Option<string>, roles: set<string>)
    requires ValidDefinition(d)
    ensures MoveRefusal(t, d, fromStatus, toStatus, roles) == CheckMove(d, fromStatus, toStatus, Context(roles, CountByStatus(t.tasks)))
    ensures CreateEntry(t, d, status) == ResolveEntry(d, status, Context({}, CountByStatus(t.tasks)))
  {
    hide CheckMove, ResolveEntry, CountByStatus, NeedsOccupancy;
    if !NeedsOccupancy(d, Some(fromStatus), Some(toStatus)) {
      LazyOccupancyDecidesAlike(d, Some(fromStatus), Some(toStatus), roles, CountByStatus(t.tasks));
    }
    if !NeedsOccupancy(d, None, status) {
      LazyOccupancyDecidesAlike(d, None, status, {}, CountByStatus(t.tasks));
    }
  }

  /** Only this task's row and tag keys may differ; the vocabulary only grows by what was asked. */
  ghost predicate OnlyTask(fold: Fold, t: Tables, after: Tables, id: nat, row: Task, keys: set<string>) {
    && after.tasks == t.tasks[id := row]
    && KeysFor(after, id) == keys
    && (forall other :: other != id ==> KeysFor(after, other) == KeysFor(t, other))
    && (forall key :: HasKey(after.tags, key) ==> HasKey(t.tags, key) || key in keys)
    && (forall tag :: tag in t.tags ==> tag in after.tags && after.tags[tag] == t.tags[tag])
  }

  /** Staging, whatever names were given, seen from the task. */
  lemma StagedTask(fold: Fold, t: Tables, id: nat, names: Option<seq<string>>)
    requires StoreOk(fold, t) && id in t.tasks
    ensures StagedTags(fold, t, id, names).Some? <==> names.None? || NoneBlank(names.value)
    ensures StagedTags(fold, t, id, names).Some? ==>
      var (staged, events) := StagedTags(fold, t, id, names).value;
      && OnlyTask(fold, t, staged, id, t.tasks[id], if names.None? then KeysFor(t, id) else RequestedKeys(fold, names.value))
      && (events == [] ==> staged == t) && staged.outbox == t.outbox
  {
    hide TasksOk, LinksHold, TagOk, TagKeysDistinct, KeysFor, RequestedKeys, HasKey, NoneBlank, Resolved, Relinked;
    assert t.tasks[id := t.tasks[id]] == t.tasks;
    if names.Some? {
      StagingLaws(fold, t, id, names.value);
      if NoneBlank(names.value) { TagsStay(fold, t, id, names.value); }
    }
  }

  /** Staging never renames, rekeys or drops a tag. */
  lemma TagsStay(fold: Fold, t: Tables, id: nat, names: seq<string>)
    requires StoreOk(fold, t) && NoneBlank(names)
    ensures
      var staged := StagedTags(fold, t, id, Some(names)).value.0;
      forall tag :: tag in t.tags ==> tag in staged.tags && staged.tags[tag] == t.tags[tag]
  {
    hide TasksOk, LinksHold, TagOk, NoneBlank, Resolved, FirstSpelling, RequestedKeys;
    ResolveLaws(fold, t.tags, t.next, names);
  }

  /** A create succeeds exactly when there is a definition whose entry the status resolves to, the
      title is not blank and free, and no tag name is blank; then it adds that one row. */
  lemma CreateEffect(fold: Fold, t: Tables, active: Option<Definition>, input: Input)
    requires StoreOk(fold, t) && Usable(active)
    ensures
      var o := CreateOutcome(fold, t, active, input);
      var key := NormalKey(fold, input.title);
      && (o.result.Ok? <==>
            && active.Some? && CreateEntry(t, active.value, input.status).Ok?
            && key != "" && KeyFree(t.tasks, t.next, key) && NoneBlank(Or(input.tags, [])))
      && (o.result.Ok? ==>
            var task := o.result.value;
            && task.id !in t.tasks
            && task == Task(task.id, Strip(input.title), key, input.description, task.status, input.priority)
            && (input.status.Some? ==> task.status == input.status.value && StartsIn(active.value.states, task.status))
            && (input.status.None? ==> StartsFirst(active.value.states, task.status))
            && OnlyTask(fold, t, o.tables, task.id, task, RequestedKeys(fold, Or(input.tags, []))))
  {
    hide TasksOk, LinksHold, TagOk, TagKeysDistinct, KeysFor, RequestedKeys, HasKey, NoneBlank, KeyFree, StagedTags, Occupancy, CheckWip, StartsIn, StartsFirst, EntryStates;
    FreshRow(fold, t);
    if active.Some? && CreateEntry(t, active.value, input.status).Ok? {
      var status := CreateEntry(t, active.value, input.status).value;
      EntriesExactly(active.value, status);
      var made := FromInput(fold, t.next, input.title, input.description, status, input.priority);
      if made.Some? && KeyFree(t.tasks, t.next, made.value.titleKey) {
        var added := Insert(t, made.value);
        Inserting(fold, t, made.value);
        StagedTask(fold, added, t.next, TagsToStage(input.tags));
        NewRowHasNoTags(fold, t, made.value);
        NoNames(fold);
        var staged := StagedTags(fold, added, t.next, TagsToStage(input.tags));
        if staged.Some? { SameKeys(staged.value.0, CreateOutcome(fold, t, active, input).tables); }
      }
    }
  }

  /** Tag keys read the join and the tags, nothing else. */
  lemma SameKeys(t: Tables, after: Tables)
    requires after.links == t.links && after.tags == t.tags
    ensures forall id :: KeysFor(after, id) == KeysFor(t, id)
  {
  }

  lemma NoNames(fold: Fold)
    ensures RequestedKeys(fold, []) == {} && NoneBlank([])
  {
  }

  lemma NewRowHasNoTags(fold: Fold, t: Tables, task: Task)
    requires StoreOk(fold, t) && task.id == t.next
    ensures KeysFor(Insert(t, task), task.id) == {}
    ensures forall id :: KeysFor(Insert(t, task), id) == KeysFor(t, id)
  {
  }

  /** The commit of an edit, once the tags are staged. */
  lemma UpdateEffect(fold: Fold, t: Tables, names: Option<seq<string>>, updated: Task, engine: Option<Definition>, rawTitle: string)
    requires StoreOk(fold, t) && updated.id in t.tasks && KeyLaw(fold, updated)
    requires updated.status != t.tasks[updated.id].status ==> engine.Some? && KnownName(engine.value, updated.status)
    requires names.None? || NoneBlank(names.value)
    ensures
      var (staged, events) := StagedTags(fold, t, updated.id, names).value;
      var o := UpdateOutcome(t, staged, updated, t.tasks[updated.id], engine, rawTitle, events);
      && (o.result.Ok? <==> KeyFree(t.tasks, updated.id, updated.titleKey))
      && (o.result.Ok? ==>
            && o.result.value == updated
            && OnlyTask(fold, t, o.tables, updated.id, updated,
                        if names.None? then KeysFor(t, updated.id) else RequestedKeys(fold, names.value)))
  {
    hide TasksOk, LinksHold, TagOk, TagKeysDistinct, KeysFor, RequestedKeys, HasKey, NoneBlank, StagedTags, UpdateEvents, KeyLaw, KeyFree;
    var id, previous := updated.id, t.tasks[updated.id];
    StagedTask(fold, t, id, names);
    LawfulRow(fold, t, id);
    RowKeyIsFree(fold, t, id);
    UnchangedRow(fold, updated, previous, engine);
    var (staged, events) := StagedTags(fold, t, id, names).value;
    var o := UpdateOutcome(t, staged, updated, previous, engine, rawTitle, events);
    if UpdateEvents(updated, previous, engine) + events == [] {
      assert events == [] && t.tasks[id := updated] == t.tasks;
    } else if KeyFree(t.tasks, id, updated.titleKey) {
      SameKeys(staged, o.tables);
    }
  }

  lemma RowKeyIsFree(fold: Fold, t: Tables, id: nat)
    requires StoreOk(fold, t) && id in t.tasks
    ensures KeyFree(t.tasks, id, t.tasks[id].titleKey)
  {
  }

  /** A replacement succeeds exactly when the task exists, the engine lets it move on the full
      count, and title and tags are in order; then exactly that row and its tag keys are as asked. */
  lemma ReplaceEffect(fold: Fold, t: Tables, active: Option<Definition>, id: nat, input: Input, roles: set<string>)
    requires StoreOk(fold, t) && Usable(active)
    ensures
      var o := ReplaceOutcome(fold, t, active, id, input, roles);
      var key, names := NormalKey(fold, input.title), Or(input.tags, []);
      && (o.result.Ok? <==>
            && active.Some? && id in t.tasks
            && CheckMove(active.value, t.tasks[id].status, Or(input.status, DefaultEntry(active.value)),
                         Context(roles, CountByStatus(t.tasks))).None?
            && key != "" && KeyFree(t.tasks, id, key) && NoneBlank(names))
      && (o.result.Ok? ==>
            && o.result.value == Task(id, Strip(input.title), key, input.description,
                                      o.result.value.status, input.priority)
            && (input.status.Some? ==> o.result.value.status == input.status.value)
            && (input.status.None? ==> StartsFirst(active.value.states, o.result.value.status))
            && OnlyTask(fold, t, o.tables, id, o.result.value, RequestedKeys(fold, names)))
  {
    hide TasksOk, LinksHold, TagOk, TagKeysDistinct, OnlyTask, NoneBlank, KeyFree, StagedTags, CheckMove, MoveRefusal, UpdateOutcome, KeyLaw, StartsFirst;
    if active.Some? && id in t.tasks {
      var target := Or(input.status, DefaultEntry(active.value));
      LawfulRow(fold, t, id);
      VerdictsAreEager(t, active.value, t.tasks[id].status, target, None, roles);
      StagedTask(fold, t, id, Some(Or(input.tags, [])));
      var made := ApplyReplace(fold, t.tasks[id], input.title, input.description, target, input.priority);
      if made.Some? && NoneBlank(Or(input.tags, [])) && MoveRefusal(t, active.value, t.tasks[id].status, target, roles).None? {
        UpdateEffect(fold, t, Some(Or(input.tags, [])), made.value, active, input.title);
      }
    }
  }

  /** The row a patch asks for. */
  function Patched(fold: Fold, task: Task, patch: Patch): Task {
    Task(task.id,
         if patch.title.Some? then Strip(patch.title.value) else task.title,
         if patch.title.Some? then NormalKey(fold, patch.title.value) else task.titleKey,
         Or(patch.description, task.description), Or(patch.status, task.status), Or(patch.priority, task.priority))
  }

  /** A patch succeeds exactly when it names something, the task exists, a named status is one the
      engine lets it move to, and a named title and tags are in order; then exactly the named
      members change, and the tag keys only when tags were given. */
  lemma PatchEffect(fold: Fold, t: Tables, active: Option<Definition>, id: nat, fields: Fields, roles: set<string>)
    requires StoreOk(fold, t) && Usable(active)
    ensures
      var o := PatchOutcome(fold, t, active, id, fields, roles);
      var patch, names := fields.patch, Or(fields.tags, None);
      && (o.result.Ok? <==>
            && (patch.title.Some? || patch.description.Some? || patch.status.Some? || patch.priority.Some? || fields.tags.Some?)
            && id in t.tasks
            && (patch.status.Some? ==> active.Some?)
            && (patch.status.Some? ==>
                  CheckMove(active.value, t.tasks[id].status, patch.status.value, Context(roles, CountByStatus(t.tasks))).None?)
            && (patch.title.Some? ==> NormalKey(fold, patch.title.value) != "")
            && KeyFree(t.tasks, id, Patched(fold, t.tasks[id], patch).titleKey)
            && (names.Some? ==> NoneBlank(names.value)))
      && (o.result.Ok? ==>
            && o.result.value == Patched(fold, t.tasks[id], patch)
            && OnlyTask(fold, t, o.tables, id, o.result.value,
                        if names.None? then KeysFor(t, id) else RequestedKeys(fold, names.value)))
  {
    hide TasksOk, LinksHold, TagOk, TagKeysDistinct, OnlyTask, NoneBlank, KeyFree, StagedTags, CheckMove, PatchRefusal, UpdateOutcome, KeyLaw;
    if fields != NoFields && id in t.tasks && (fields.patch.status.Some? ==> active.Some?) {
      LawfulRow(fold, t, id);
      var task, names := t.tasks[id], Or(fields.tags, None);
      PatchVerdict(t, active, task, fields, roles);
      StagedTask(fold, t, id, names);
      var made := ApplyPatch(fold, task, fields.patch);
      if made.Some? && (names.Some? ==> NoneBlank(names.value)) && PatchRefusal(t, active, task, fields, roles).None? {
        UpdateEffect(fold, t, names, made.value, PatchEngine(active, fields), Or(fields.patch.title, made.value.title));
      }
    }
  }

  lemma PatchVerdict(t: Tables, active: Option<Definition>, task: Task, fields: Fields, roles: set<string>)
    requires Usable(active) && (fields.patch.status.Some? ==> active.Some?)
    ensures PatchRefusal(t, active, task, fields, roles) ==
      if fields.patch.status.None? then None
      else CheckMove(active.value, task.status, fields.patch.status.value, Context(roles, CountByStatus(t.tasks)))
  {
    hide MoveRefusal, CheckMove;
    if fields.patch.status.Some? { VerdictsAreEager(t, active.value, task.status, fields.patch.status.value, None, roles); }
  }

  /** A deletion takes exactly the row and its links; every other task keeps its tags, and no tag
      goes with it. */
  lemma DeleteEffect(fold: Fold, t: Tables, id: nat)
    requires StoreOk(fold, t)
    ensures
      var o := DeleteOutcome(t, id);
      && (o.result.Ok? <==> id in t.tasks)
      && (o.result.Ok? ==>
            && o.tables.tasks == t.tasks - {id} && o.tables.tags == t.tags && KeysFor(o.tables, id) == {}
            && forall other :: other != id ==> KeysFor(o.tables, other) == KeysFor(t, other))
  {
    hide StoreOk;
    if id in t.tasks {
      var after := DropTask(t, id);
      SameKeys(after, Publish(after, [TaskDeleted(t.tasks[id])]));
      forall other | other != id ensures KeysFor(after, other) == KeysFor(t, other) { OtherKeys(t, id, other); }
    }
  }

  function LinksTo(links: set<Link>, id: nat): set<Link> {
    set l | l in links && l.1 == id
  }

  function TasksTo(links: set<Link>, id: nat): set<nat> {
    set l | l in links && l.1 == id :: l.0
  }

  lemma OneLinkMore(rest: set<Link>, some: Link, id: nat)
    requires some !in rest
    ensures LinksTo(rest + {some}, id) == LinksTo(rest, id) + if some.1 == id then {some} else {}
    ensures TasksTo(rest + {some}, id) == TasksTo(rest, id) + if some.1 == id then {some.0} else {}
    ensures some.1 == id ==> some !in LinksTo(rest, id) && some.0 !in TasksTo(rest, id)
  {
  }

  lemma {:induction false} LinksPerTask(links: set<Link>, id: nat)
    ensures |LinksTo(links, id)| == |TasksTo(links, id)|
    decreases links
  {
    if links == {} {
      assert LinksTo(links, id) == {} && TasksTo(links, id) == {};
    } else {
      var some :| some in links;
      hide LinksTo, TasksTo;
      LinksPerTask(links - {some}, id);
      OneLinkMore(links - {some}, some, id);
      assert links - {some} + {some} == links;
    }
  }

  /** A tag's count is the number of tasks that carry its key. */
  lemma HoldersCounted(fold: Fold, t: Tables, id: nat)
    requires StoreOk(fold, t) && id in t.tags
    ensures TaskCount(t, id) == |set task | task in t.tasks && t.tags[id].nameKey in KeysFor(t, task)|
  {
    LinksPerTask(t.links, id);
    assert TaskCount(t, id) == |LinksTo(t.links, id)|;
    forall task ensures (task, id) in t.links <==> task in t.tasks && t.tags[id].nameKey in KeysFor(t, task) {
      if task in t.tasks && t.tags[id].nameKey in KeysFor(t, task) {
        var l :| l in t.links && l.0 == task && l.1 in t.tags && t.tags[l.1].nameKey == t.tags[id].nameKey;
        assert l == (task, id);
      }
      if (task, id) in t.links { LinkGivesKey(t, task, id); }
    }
    assert TasksTo(t.links, id) == (set task | task in t.tasks && t.tags[id].nameKey in KeysFor(t, task)) by {
      forall l | l in t.links && l.1 == id ensures l == (l.0, id) {}
    }
  }

  lemma LinkGivesKey(t: Tables, task: nat, id: nat)
    requires LinksHold(t) && (task, id) in t.links
    ensures task in t.tasks && id in t.tags && t.tags[id].nameKey in KeysFor(t, task)
  {
    var l := (task, id);
    assert l in t.links;
  }

  /** A tag goes exactly when no task carries its key; then its key leaves the vocabulary and every
      task keeps its tags. Otherwise the refusal counts the tasks that carry it. */
  lemma DeleteTagEffect(fold: Fold, t: Tables, id: nat)
    requires StoreOk(fold, t)
    ensures
      var o := DeleteTagOutcome(t, id);
      && (o.result.Ok? <==> id in t.tags && forall task :: t.tags[id].nameKey !in KeysFor(t, task))
      && (id !in t.tags ==> o.result == Err(TagNotFound(id)))
      && (id in t.tags && o.result.Err? ==>
            o.result.error == TagInUse(id, t.tags[id].name, |set task | task in t.tasks && t.tags[id].nameKey in KeysFor(t, task)|))
      && (o.result.Ok? ==>
            && o.tables.tasks == t.tasks && o.tables.tags == t.tags - {id}
            && forall task :: KeysFor(o.tables, task) == KeysFor(t, task))
  {
    hide StoreOk, KeysFor, TaskCount;
    if id in t.tags {
      if TaskCount(t, id) > 0 {
        HeldTag(fold, t, id);
        HoldersCounted(fold, t, id);
      } else {
        UnheldTag(t, id);
        var after := DropTag(t, id);
        SameKeys(after, Publish(after, [TagDeleted(id, t.tags[id].name)]));
        forall task ensures KeysFor(after, task) == KeysFor(t, task) && t.tags[id].nameKey !in KeysFor(t, task) {
          UnheldKeys(fold, t, id, task);
        }
      }
    }
  }

  /** A tag counted by a task gives that task its key. */
  lemma HeldTag(fold: Fold, t: Tables, id: nat)
    requires StoreOk(fold, t) && id in t.tags && TaskCount(t, id) > 0
    ensures exists task :: t.tags[id].nameKey in KeysFor(t, task)
  {
    var holders := set l | l in t.links && l.1 == id;
    var l :| l in holders;
    assert t.tags[id].nameKey in KeysFor(t, l.0);
  }
}
