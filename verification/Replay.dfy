/** Replaying the outbox: the events the use-cases stage, folded in commit order, rebuild the task
    table, each task's tag keys and the tag vocabulary. The fold is strict: an event that does not
    fit the view it meets stops it. */
module Replay {
  import opened Wrappers
  import opened Text
  import opened Definitions
  import opened Engine
  import opened Tasks
  import opened Store
  import opened TagLaws
  import opened StoreLaws
  import opened UseCases

  datatype View = View(tasks: map<nat, Task>, keys: map<nat, set<string>>, vocabulary: set<string>)

  function Vocabulary(t: Tables): set<string> {
    set id | id in t.tags :: t.tags[id].nameKey
  }

  function ViewOf(t: Tables): View {
    View(t.tasks, map id | id in t.tasks :: KeysFor(t, id), Vocabulary(t))
  }

  function Keys(fold: Fold, names: set<string>): set<string> {
    set name | name in names :: NormalKey(fold, name)
  }

  predicate Lawful(fold: Fold, tasks: map<nat, Task>, task: Task) {
    KeyLaw(fold, task) && KeyFree(tasks, task.id, task.titleKey)
  }

  predicate Shows(v: View, task: Task) {
    task.id in v.tasks && v.tasks[task.id] == task
  }

  predicate Unheld(v: View, key: string) {
    forall id :: id in v.keys ==> key !in v.keys[id]
  }

  /** One event applied to the view, or nothing when the view contradicts it. */
  function Accept(fold: Fold, v: View, event: Event): Option<View> {
    match event
    case TaskCreated(task) =>
      if task.id !in v.tasks && Lawful(fold, v.tasks, task)
      then Some(v.(tasks := v.tasks[task.id := task], keys := v.keys[task.id := {}])) else None
    case TaskUpdated(task, previous, changed) =>
      if task.id == previous.id && Shows(v, previous) && changed == ChangedFields(task, previous) != [] && Lawful(fold, v.tasks, task)
      then Some(v.(tasks := v.tasks[task.id := task])) else None
    case TaskStatusChanged(task, fromStatus, toStatus) =>
      if Shows(v, task) && fromStatus != toStatus == task.status then Some(v) else None
    case TaskCompleted(task) =>
      if Shows(v, task) then Some(v) else None
    case TaskDeleted(task) =>
      if Shows(v, task) then Some(v.(tasks := v.tasks - {task.id}, keys := v.keys - {task.id})) else None
    case TaskTagsChanged(id, tags, added, removed) =>
      if id in v.tasks && id in v.keys && v.keys[id] == Keys(fold, (tags - added) + removed)
      then Some(v.(keys := v.keys[id := Keys(fold, tags)], vocabulary := v.vocabulary + Keys(fold, tags))) else None
    case TagDeleted(_, name) =>
      var key := NormalKey(fold, name);
      if key in v.vocabulary && Unheld(v, key) then Some(v.(vocabulary := v.vocabulary - {key})) else None
    case WorkflowUpdated(_, _) => Some(v)
  }

  function Rebuild(fold: Fold, v: View, events: seq<Event>): Option<View>
    decreases |events|
  {
    if events == [] then Some(v)
    else
      match Accept(fold, v, events[0])
      case None => None
      case Some(next) => Rebuild(fold, next, events[1..])
  }

  // ----- Serial runs -----

  datatype Request =
    | CreateTask(input: Input)
    | ReplaceTask(id: nat, input: Input, roles: set<string>)
    | PatchTask(id: nat, fields: Fields, roles: set<string>)
    | DeleteTask(id: nat)
    | DeleteTag(id: nat)

  /** One request, served under whatever definition is then active. */
  datatype Call = Call(active: Option<Definition>, request: Request)

  datatype Served = Served(error: Option<ServiceError>, tables: Tables)

  function ServedAs<T>(o: Outcome<T>): Served {
    Served(if o.result.Err? then Some(o.result.error) else None, o.tables)
  }

  function Serve(fold: Fold, t: Tables, call: Call): Served
    requires Usable(call.active) && TagKeysDistinct(t.tags)
  {
    match call.request
    case CreateTask(input) => ServedAs(CreateOutcome(fold, t, call.active, input))
    case ReplaceTask(id, input, roles) => ServedAs(ReplaceOutcome(fold, t, call.active, id, input, roles))
    case PatchTask(id, fields, roles) => ServedAs(PatchOutcome(fold, t, call.active, id, fields, roles))
    case DeleteTask(id) => ServedAs(DeleteOutcome(t, id))
    case DeleteTag(id) => ServedAs(DeleteTagOutcome(t, id))
  }

  const Empty := Tables(map[], map[], {}, [], 0)

  // ----- Events against views -----

  lemma {:induction false} RebuildConcat(fold: Fold, v: View, first: seq<Event>, second: seq<Event>)
    requires Rebuild(fold, v, first).Some?
    ensures Rebuild(fold, v, first + second) == Rebuild(fold, Rebuild(fold, v, first).value, second)
    decreases |first|
  {
    hide Accept;
    if first == [] {
      assert first + second == second;
    } else {
      assert (first + second)[1..] == first[1..] + second;
      RebuildConcat(fold, Accept(fold, v, first[0]).value, first[1..], second);
    }
  }

  lemma RebuildOne(fold: Fold, v: View, event: Event)
    ensures Rebuild(fold, v, [event]) == Accept(fold, v, event)
  {
    hide Accept;
    assert [event][1..] == [];
  }

  lemma NewTaskKeys(t: Tables, after: Tables, id: nat)
    requires LinksHold(t) && id !in t.tasks && after.links == t.links && after.tags == t.tags
    ensures KeysFor(after, id) == {}
    ensures forall other :: KeysFor(after, other) == KeysFor(t, other)
  {
  }

  lemma InsertedView(fold: Fold, t: Tables, task: Task)
    requires StoreOk(fold, t) && task.id == t.next && Lawful(fold, t.tasks, task)
    ensures Accept(fold, ViewOf(t), TaskCreated(task)) == Some(ViewOf(Insert(t, task)))
  {
    hide Lawful, KeysFor, StoreOk, LinksHold;
    var after := Insert(t, task);
    FreshRow(fold, t);
    NewTaskKeys(t, after, task.id);
    assert ViewOf(after).keys == ViewOf(t).keys[task.id := {}];
  }

  /** The events of an edit take the view from the old row to the new one. */
  lemma EditedView(fold: Fold, t: Tables, updated: Task, previous: Task, engine: Option<Definition>)
    requires updated.id in t.tasks && t.tasks[updated.id] == previous && previous.id == updated.id
    requires updated.status != previous.status ==> engine.Some? && KnownName(engine.value, updated.status)
    requires UpdateEvents(updated, previous, engine) != [] ==> Lawful(fold, t.tasks, updated)
    requires UpdateEvents(updated, previous, engine) == [] ==> updated == previous
    ensures Rebuild(fold, ViewOf(t), UpdateEvents(updated, previous, engine)) == Some(ViewOf(Overwrite(t, updated)))
  {
    hide Lawful, Completes;
    var events, after := UpdateEvents(updated, previous, engine), Overwrite(t, updated);
    assert forall id :: KeysFor(after, id) == KeysFor(t, id);
    assert ViewOf(after).keys == ViewOf(t).keys;
    if events == [] {
      assert after.tasks == t.tasks;
    } else {
      assert events[0] == TaskUpdated(updated, previous, ChangedFields(updated, previous));
      assert Accept(fold, ViewOf(t), events[0]) == Some(ViewOf(after));
      forall i | 1 <= i < |events| ensures Accept(fold, ViewOf(after), events[i]) == Some(ViewOf(after)) {}
      RebuildStill(fold, ViewOf(after), events[1..]);
    }
  }

  lemma {:induction false} RebuildStill(fold: Fold, v: View, events: seq<Event>)
    requires forall i :: 0 <= i < |events| ==> Accept(fold, v, events[i]) == Some(v)
    ensures Rebuild(fold, v, events) == Some(v)
    decreases |events|
  {
    hide Accept;
    if events != [] { RebuildStill(fold, v, events[1..]); }
  }

  lemma SpellingKeys(fold: Fold, names: seq<string>)
    ensures Keys(fold, Spellings(names)) == RequestedKeys(fold, names)
  {
    forall i | 0 <= i < |names| ensures NormalKey(fold, Strip(names[i])) == NormalKey(fold, names[i]) { StripLaws(names[i]); }
    forall key | key in RequestedKeys(fold, names) ensures key in Keys(fold, Spellings(names)) {
      var i :| 0 <= i < |names| && NormalKey(fold, names[i]) == key;
      assert Strip(names[i]) in Spellings(names);
    }
  }

  lemma HeldKeys(fold: Fold, t: Tables, taskId: nat)
    requires StoreOk(fold, t)
    ensures Keys(fold, NamesFor(t, taskId)) == KeysFor(t, taskId)
  {
    forall key | key in KeysFor(t, taskId) ensures key in Keys(fold, NamesFor(t, taskId)) {
      var l :| l in t.links && l.0 == taskId && l.1 in t.tags && t.tags[l.1].nameKey == key;
      assert t.tags[l.1].name in NamesFor(t, taskId) && TagOk(fold, t.tags[l.1]);
    }
    forall key | key in Keys(fold, NamesFor(t, taskId)) ensures key in KeysFor(t, taskId) {
      var name :| name in NamesFor(t, taskId) && NormalKey(fold, name) == key;
      var l :| l in t.links && l.0 == taskId && l.1 in t.tags && t.tags[l.1].name == name;
      assert TagOk(fold, t.tags[l.1]);
    }
  }

  lemma GrownVocabulary(fold: Fold, t: Tables, after: Tables, names: seq<string>)
    requires forall key :: HasKey(after.tags, key) <==> HasKey(t.tags, key) || key in RequestedKeys(fold, names)
    ensures Vocabulary(after) == Vocabulary(t) + RequestedKeys(fold, names)
  {
    forall key ensures key in Vocabulary(after) <==> HasKey(after.tags, key) {}
    forall key ensures key in Vocabulary(t) <==> HasKey(t.tags, key) {}
  }

  /** A tag event takes the view across the staging it reports. */
  lemma StagedView(fold: Fold, t: Tables, taskId: nat, names: seq<string>, after: Tables, events: seq<Event>)
    requires StoreOk(fold, t) && taskId in t.tasks && StagedOk(fold, t, taskId, names, after, events)
    ensures Rebuild(fold, ViewOf(t), events) == Some(ViewOf(after))
  {
    hide StoreOk, HasKey, KeysFor, NamesFor, Spellings, RequestedKeys, Keys, Vocabulary;
    if events != [] {
      var held, asked := NamesFor(t, taskId), Spellings(names);
      RebuildOne(fold, ViewOf(t), events[0]);
      SpellingKeys(fold, names);
      HeldKeys(fold, t, taskId);
      GrownVocabulary(fold, t, after, names);
      assert (asked - (asked - held)) + (held - asked) == held;
      assert ViewOf(after).keys == ViewOf(t).keys[taskId := RequestedKeys(fold, names)];
    }
  }

  lemma RemovedView(fold: Fold, t: Tables, id: nat)
    requires StoreOk(fold, t) && id in t.tasks
    ensures Accept(fold, ViewOf(t), TaskDeleted(t.tasks[id])) == Some(ViewOf(DropTask(t, id)))
  {
    hide StoreOk, KeysFor;
    var after := DropTask(t, id);
    LawfulRow(fold, t, id);
    forall other | other != id ensures KeysFor(after, other) == KeysFor(t, other) { OtherKeys(t, id, other); }
    assert ViewOf(after).keys == ViewOf(t).keys - {id};
  }

  lemma DroppedTagView(fold: Fold, t: Tables, id: nat)
    requires StoreOk(fold, t) && id in t.tags && TaskCount(t, id) == 0
    ensures Accept(fold, ViewOf(t), TagDeleted(id, t.tags[id].name)) == Some(ViewOf(DropTag(t, id)))
  {
    hide TaskCount, TitleKeysDistinct, KeysFor, Vocabulary, LinksHold;
    var after, key := DropTag(t, id), t.tags[id].nameKey;
    UnheldTag(t, id);
    assert TagOk(fold, t.tags[id]);
    forall other ensures KeysFor(after, other) == KeysFor(t, other) && key !in KeysFor(t, other) {
      UnheldKeys(fold, t, id, other);
    }
    DroppedKey(t, id);
    assert ViewOf(after).keys == ViewOf(t).keys;
  }

  lemma DroppedKey(t: Tables, id: nat)
    requires TagKeysDistinct(t.tags) && id in t.tags
    ensures Vocabulary(DropTag(t, id)) == Vocabulary(t) - {t.tags[id].nameKey} && t.tags[id].nameKey in Vocabulary(t)
  {
    var after := DropTag(t, id);
    forall k | k in Vocabulary(t) && k != t.tags[id].nameKey ensures k in Vocabulary(after) {
      var u :| u in t.tags && t.tags[u].nameKey == k;
      assert after.tags[u].nameKey == k;
    }
  }

  // ----- One request -----

  /** The events recorded between two tables rebuild the second view from the first. */
  predicate Follows(fold: Fold, t: Tables, after: Tables, events: seq<Event>) {
    && StoreOk(fold, after)
    && after.outbox == t.outbox + events
    && Rebuild(fold, ViewOf(t), events) == Some(ViewOf(after))
  }

  lemma NothingFollows(fold: Fold, t: Tables)
    requires StoreOk(fold, t)
    ensures Follows(fold, t, t, [])
  {
  }

  lemma {:induction false} FollowsOn(fold: Fold, t: Tables, middle: Tables, after: Tables, first: seq<Event>, second: seq<Event>)
    requires Follows(fold, t, middle, first) && Follows(fold, middle, after, second)
    ensures Follows(fold, t, after, first + second)
  {
    hide StoreOk, Rebuild, ViewOf;
    RebuildConcat(fold, ViewOf(t), first, second);
    assert t.outbox + first + second == t.outbox + (first + second);
  }

  /** Publishing turns a rebuilt view into a followed one. */
  lemma PublishFollows(fold: Fold, t: Tables, after: Tables, events: seq<Event>)
    requires StoreOk(fold, after) && after.outbox == t.outbox && Rebuild(fold, ViewOf(t), events) == Some(ViewOf(after))
    ensures Follows(fold, t, Publish(after, events), events)
  {
    hide StoreOk, Rebuild;
    Publishing(fold, after, events);
    assert forall id :: KeysFor(Publish(after, events), id) == KeysFor(after, id);
    assert ViewOf(Publish(after, events)).keys == ViewOf(after).keys;
  }

  /** What a request did: nothing when it was refused, and otherwise what its events replay. */
  ghost predicate Recorded(fold: Fold, t: Tables, served: Served) {
    && (served.error.Some? ==> served.tables == t && !served.error.value.RawIntegrity?)
    && exists events :: Follows(fold, t, served.tables, events)
  }

  /** The event list a staging returns rebuilds the view, names given or not. */
  lemma StagedAny(fold: Fold, t: Tables, taskId: nat, names: Option<seq<string>>)
    requires StoreOk(fold, t) && taskId in t.tasks && StagedTags(fold, t, taskId, names).Some?
    ensures
      var (after, events) := StagedTags(fold, t, taskId, names).value;
      StoreOk(fold, after) && after.tasks == t.tasks && after.outbox == t.outbox && Rebuild(fold, ViewOf(t), events) == Some(ViewOf(after))
  {
    hide TasksOk, LinksHold, TagOk, TagKeysDistinct, Accept, ViewOf, NoneBlank;
    Staging(fold, t, taskId, names);
    if names.Some? {
      var staged := StagedTags(fold, t, taskId, names).value;
      StagingLaws(fold, t, taskId, names.value);
      StagedView(fold, t, taskId, names.value, staged.0, staged.1);
    }
  }

  lemma CreateFollows(fold: Fold, t: Tables, task: Task, names: Option<seq<string>>)
    requires StoreOk(fold, t) && task.id == t.next && KeyLaw(fold, task) && KeyFree(t.tasks, task.id, task.titleKey)
    requires StoreOk(fold, Insert(t, task)) && StagedTags(fold, Insert(t, task), task.id, names).Some?
    ensures
      var (after, events) := StagedTags(fold, Insert(t, task), task.id, names).value;
      Follows(fold, t, Publish(after, [TaskCreated(task)] + events), [TaskCreated(task)] + events)
  {
    hide TasksOk, LinksHold, TagOk, TagKeysDistinct, Accept, ViewOf, StagedTags, Follows;
    var (after, events) := StagedTags(fold, Insert(t, task), task.id, names).value;
    InsertedView(fold, t, task);
    RebuildOne(fold, ViewOf(t), TaskCreated(task));
    StagedAny(fold, Insert(t, task), task.id, names);
    RebuildConcat(fold, ViewOf(t), [TaskCreated(task)], events);
    PublishFollows(fold, t, after, [TaskCreated(task)] + events);
  }

  /** Staging and editing touch different rows, so the tag events replay over the edited row too. */
  lemma StagedOver(fold: Fold, t: Tables, taskId: nat, names: Option<seq<string>>, updated: Task)
    requires StoreOk(fold, t) && taskId in t.tasks && updated.id == taskId && KeyLaw(fold, updated)
    requires KeyFree(t.tasks, taskId, updated.titleKey) && StagedTags(fold, t, taskId, names).Some?
    ensures
      var (staged, events) := StagedTags(fold, t, taskId, names).value;
      && StoreOk(fold, Overwrite(staged, updated))
      && Rebuild(fold, ViewOf(Overwrite(t, updated)), events) == Some(ViewOf(Overwrite(staged, updated)))
  {
    hide TasksOk, LinksHold, TagOk, TagKeysDistinct, Accept, ViewOf, Rebuild;
    var edited := Overwrite(t, updated);
    Overwriting(fold, t, updated);
    assert NamesFor(edited, taskId) == NamesFor(t, taskId);
    StagedAny(fold, edited, taskId, names);
    var (staged, events) := StagedTags(fold, t, taskId, names).value;
    Staging(fold, t, taskId, names);
    assert StagedTags(fold, edited, taskId, names) == Some((Overwrite(staged, updated), events));
  }

  lemma UpdateFollows(fold: Fold, t: Tables, names: Option<seq<string>>, updated: Task, engine: Option<Definition>, rawTitle: string)
    requires StoreOk(fold, t) && updated.id in t.tasks && KeyLaw(fold, updated)
    requires updated.status != t.tasks[updated.id].status ==> engine.Some? && KnownName(engine.value, updated.status)
    requires StagedTags(fold, t, updated.id, names).Some?
    ensures
      var (staged, events) := StagedTags(fold, t, updated.id, names).value;
      Recorded(fold, t, ServedAs(UpdateOutcome(t, staged, updated, t.tasks[updated.id], engine, rawTitle, events)))
  {
    hide TasksOk, LinksHold, TagOk, TagKeysDistinct, Accept, ViewOf, StagedTags, Follows, UpdateEvents, KeyLaw;
    var previous := t.tasks[updated.id];
    var (staged, tagEvents) := StagedTags(fold, t, updated.id, names).value;
    NothingFollows(fold, t);
    LawfulRow(fold, t, updated.id);
    UnchangedRow(fold, updated, previous, engine);
    var edits := UpdateEvents(updated, previous, engine);
    if edits + tagEvents != [] && KeyFree(t.tasks, updated.id, updated.titleKey) {
      EditedView(fold, t, updated, previous, engine);
      StagedOver(fold, t, updated.id, names, updated);
      RebuildConcat(fold, ViewOf(t), edits, tagEvents);
      Staging(fold, t, updated.id, names);
      PublishFollows(fold, t, Overwrite(staged, updated), edits + tagEvents);
    }
  }

  lemma CreateRecords(fold: Fold, t: Tables, active: Option<Definition>, input: Input)
    requires StoreOk(fold, t) && Usable(active)
    ensures Recorded(fold, t, ServedAs(CreateOutcome(fold, t, active, input)))
  {
    hide TasksOk, LinksHold, TagOk, TagKeysDistinct, StagedTags, Follows, KeyFree, KeyLaw, CreateEntry;
    NothingFollows(fold, t);
    if active.Some? && CreateEntry(t, active.value, input.status).Ok? {
      var status := CreateEntry(t, active.value, input.status).value;
      var task := FromInput(fold, t.next, input.title, input.description, status, input.priority);
      if task.Some? && KeyFree(t.tasks, task.value.id, task.value.titleKey) {
        Inserting(fold, t, task.value);
        if StagedTags(fold, Insert(t, task.value), task.value.id, TagsToStage(input.tags)).Some? {
          CreateFollows(fold, t, task.value, TagsToStage(input.tags));
        }
      }
    }
  }

  lemma ReplaceRecords(fold: Fold, t: Tables, active: Option<Definition>, id: nat, input: Input, roles: set<string>)
    requires StoreOk(fold, t) && Usable(active)
    ensures Recorded(fold, t, ServedAs(ReplaceOutcome(fold, t, active, id, input, roles)))
  {
    hide TasksOk, LinksHold, TagOk, TagKeysDistinct, StagedTags, Follows, KeyLaw, UpdateOutcome, MoveRefusal;
    NothingFollows(fold, t);
    if active.Some? && id in t.tasks {
      var target := Or(input.status, DefaultEntry(active.value));
      var updated := ApplyReplace(fold, t.tasks[id], input.title, input.description, target, input.priority);
      LawfulRow(fold, t, id);
      if updated.Some? && MoveRefusal(t, active.value, t.tasks[id].status, target, roles).None? && StagedTags(fold, t, id, Some(Or(input.tags, []))).Some? {
        UpdateFollows(fold, t, Some(Or(input.tags, [])), updated.value, active, input.title);
      }
    }
  }

  lemma PatchRecords(fold: Fold, t: Tables, active: Option<Definition>, id: nat, fields: Fields, roles: set<string>)
    requires StoreOk(fold, t) && Usable(active)
    ensures Recorded(fold, t, ServedAs(PatchOutcome(fold, t, active, id, fields, roles)))
  {
    hide TasksOk, LinksHold, TagOk, TagKeysDistinct, StagedTags, Follows, KeyLaw, UpdateOutcome, PatchRefusal;
    NothingFollows(fold, t);
    if id in t.tasks && (fields.patch.status.Some? ==> active.Some?) {
      var updated := ApplyPatch(fold, t.tasks[id], fields.patch);
      LawfulRow(fold, t, id);
      if updated.Some? && PatchRefusal(t, active, t.tasks[id], fields, roles).None? && StagedTags(fold, t, id, Or(fields.tags, None)).Some? {
        UpdateFollows(fold, t, Or(fields.tags, None), updated.value, PatchEngine(active, fields), Or(fields.patch.title, updated.value.title));
      }
    }
  }

  lemma DeleteRecords(fold: Fold, t: Tables, id: nat)
    requires StoreOk(fold, t)
    ensures Recorded(fold, t, ServedAs(DeleteOutcome(t, id)))
  {
    hide StoreOk, Accept, ViewOf, Follows;
    NothingFollows(fold, t);
    if id in t.tasks {
      RemovedView(fold, t, id);
      RebuildOne(fold, ViewOf(t), TaskDeleted(t.tasks[id]));
      Dropping(fold, t, id);
      PublishFollows(fold, t, DropTask(t, id), [TaskDeleted(t.tasks[id])]);
    }
  }

  lemma DeleteTagRecords(fold: Fold, t: Tables, id: nat)
    requires StoreOk(fold, t)
    ensures Recorded(fold, t, ServedAs(DeleteTagOutcome(t, id)))
  {
    hide StoreOk, Accept, ViewOf, Follows, TaskCount;
    NothingFollows(fold, t);
    if id in t.tags && TaskCount(t, id) == 0 {
      DroppedTagView(fold, t, id);
      RebuildOne(fold, ViewOf(t), TagDeleted(id, t.tags[id].name));
      Dropping(fold, t, id);
      PublishFollows(fold, t, DropTag(t, id), [TagDeleted(id, t.tags[id].name)]);
    }
  }

  /** One request, whatever it is and whatever definition is active: a refusal leaves the tables as
      they were and is never a raw constraint violation; a success stages events that rebuild the
      new view from the old one. Either way the store stays lawful. */
  lemma EveryRequestIsRecorded(fold: Fold, t: Tables, call: Call)
    requires StoreOk(fold, t) && Usable(call.active)
    ensures Recorded(fold, t, Serve(fold, t, call))
  {
    hide TasksOk, LinksHold, TagOk, TagKeysDistinct, Recorded, CreateOutcome, ReplaceOutcome, PatchOutcome, DeleteOutcome, DeleteTagOutcome;
    match call.request
    case CreateTask(input) => CreateRecords(fold, t, call.active, input);
    case ReplaceTask(id, input, roles) => ReplaceRecords(fold, t, call.active, id, input, roles);
    case PatchTask(id, fields, roles) => PatchRecords(fold, t, call.active, id, fields, roles);
    case DeleteTask(id) => DeleteRecords(fold, t, id);
    case DeleteTag(id) => DeleteTagRecords(fold, t, id);
  }

  // ----- Whole runs -----

  predicate CallsUsable(calls: seq<Call>) {
    forall i :: 0 <= i < |calls| ==> Usable(calls[i].active)
  }

  function ServeAll(fold: Fold, t: Tables, calls: seq<Call>): (after: Tables)
    requires StoreOk(fold, t) && CallsUsable(calls)
    ensures StoreOk(fold, after)
    decreases |calls|
  {
    if calls == [] then t
    else
      EveryRequestIsRecorded(fold, t, calls[0]);
      ServeAll(fold, Serve(fold, t, calls[0]).tables, calls[1..])
  }

  lemma {:induction false} RunIsRecorded(fold: Fold, t: Tables, calls: seq<Call>)
    requires StoreOk(fold, t) && CallsUsable(calls)
    ensures exists events :: Follows(fold, t, ServeAll(fold, t, calls), events)
    decreases |calls|
  {
    hide TasksOk, LinksHold, TagOk, TagKeysDistinct, Rebuild, ViewOf, Serve;
    if calls == [] {
      NothingFollows(fold, t);
      assert ServeAll(fold, t, calls) == t;
      assert Follows(fold, t, ServeAll(fold, t, calls), []);
    } else {
      var next := Serve(fold, t, calls[0]);
      EveryRequestIsRecorded(fold, t, calls[0]);
      var first :| Follows(fold, t, next.tables, first);
      RunIsRecorded(fold, next.tables, calls[1..]);
      var second :| Follows(fold, next.tables, ServeAll(fold, next.tables, calls[1..]), second);
      FollowsOn(fold, t, next.tables, ServeAll(fold, t, calls), first, second);
    }
  }

  /** The outbox is a log: after any serial run from empty tables, successful or refused request
      by request, its events replay from the empty view, without ever contradicting it, to
      exactly the task table, each task's tag keys and the vocabulary's keys; and stored keys are
      distinct and equal to the normalised text. */
  lemma OutboxRebuildsTheTables(fold: Fold, calls: seq<Call>)
    requires CallsUsable(calls)
    ensures
      var end := ServeAll(fold, Empty, calls);
      && StoreOk(fold, end)
      && Rebuild(fold, View(map[], map[], {}), end.outbox) == Some(ViewOf(end))
  {
    hide Rebuild, Serve, TasksOk, TagsOk, LinksHold;
    EmptyIsOk(fold);
    RunIsRecorded(fold, Empty, calls);
    var end := ServeAll(fold, Empty, calls);
    var events :| Follows(fold, Empty, end, events);
    assert end.outbox == events;
  }

  lemma EmptyIsOk(fold: Fold)
    ensures StoreOk(fold, Empty) && ViewOf(Empty) == View(map[], map[], {})
  {
  }
}
