/** Tasks: the row, its title key, the edits, the events an edit stages, and what an UPDATE of a
    tracked row writes. `fold` stands for `str.casefold`, about which nothing is assumed. */
module Tasks {
  import opened Wrappers
  import opened Text
  import opened Definitions
  import opened Engine

  type Fold = string -> string

  datatype Task = Task(
    id: nat, title: string, titleKey: string, description: Option<string>, status: string, priority: int)

  /** A partial update: only the present fields are assigned. */
  datatype Patch = Patch(
    title: Option<string>, description: Option<Option<string>>, status: Option<string>, priority: Option<int>)

  datatype Field = Title | Description | Status | Priority

  datatype Event =
    | TaskCreated(task: Task)
    | TaskUpdated(task: Task, previous: Task, changed: seq<Field>)
    | TaskStatusChanged(task: Task, fromStatus: string, toStatus: string)
    | TaskCompleted(task: Task)
    | TaskDeleted(task: Task)
    | TaskTagsChanged(taskId: nat, tags: set<string>, added: set<string>, removed: set<string>)
    | TagDeleted(tagId: nat, name: string)
    | WorkflowUpdated(version: int, states: seq<string>)

  /** `strip().casefold()`: the comparison key of titles and of tag names alike. */
  function NormalKey(fold: Fold, text: string): string {
    fold(Strip(text))
  }

  predicate KeyLaw(fold: Fold, task: Task) {
    task.titleKey == NormalKey(fold, task.title) && task.titleKey != ""
  }

  /** `Task.clean_title`: the stripped title and its key, or nothing when the key is empty. */
  function CleanTitle(fold: Fold, title: string): Option<(string, string)> {
    var key := NormalKey(fold, title);
    if key == "" then None else Some((Strip(title), key))
  }

  function FromInput(fold: Fold, id: nat, title: string, description: Option<string>, status: string, priority: int): (r: Option<Task>)
    ensures r.Some? <==> NormalKey(fold, title) != ""
    ensures r.Some? ==> KeyLaw(fold, r.value)
    ensures r.Some? ==> r.value == Task(id, Strip(title), NormalKey(fold, title), description, status, priority)
  {
    StripLaws(title);
    match CleanTitle(fold, title)
    case None => None
    case Some((clean, key)) => Some(Task(id, clean, key, description, status, priority))
  }

  function ApplyReplace(fold: Fold, task: Task, title: string, description: Option<string>, status: string, priority: int): (r: Option<Task>)
    ensures r.Some? <==> NormalKey(fold, title) != ""
    ensures r.Some? ==> KeyLaw(fold, r.value)
    ensures r.Some? ==> r.value == Task(task.id, Strip(title), NormalKey(fold, title), description, status, priority)
  {
    FromInput(fold, task.id, title, description, status, priority)
  }

  function Or<T>(value: Option<T>, default: T): T {
    if value.Some? then value.value else default
  }

  function ApplyPatch(fold: Fold, task: Task, patch: Patch): (r: Option<Task>)
    ensures r.Some? ==> r.value.id == task.id && r.value.status == Or(patch.status, task.status)
    ensures r.Some? && KeyLaw(fold, task) ==> KeyLaw(fold, r.value)
    ensures r.Some? <==> (patch.title.Some? ==> NormalKey(fold, patch.title.value) != "")
    ensures r.Some? ==> r.value.title == (if patch.title.Some? then Strip(patch.title.value) else task.title)
    ensures r.Some? ==> r.value.titleKey == (if patch.title.Some? then NormalKey(fold, patch.title.value) else task.titleKey)
    ensures r.Some? ==> r.value.description == Or(patch.description, task.description) && r.value.priority == Or(patch.priority, task.priority)
  {
    StripLaws(Or(patch.title, ""));
    var titled := if patch.title.None? then Some((task.title, task.titleKey)) else CleanTitle(fold, patch.title.value);
    if titled.None? then None
    else Some(Task(task.id, titled.value.0, titled.value.1, Or(patch.description, task.description),
                   Or(patch.status, task.status), Or(patch.priority, task.priority)))
  }

  /** The mutable fields whose value differs, in canonical order. */
  function ChangedFields(updated: Task, previous: Task): seq<Field> {
    (if updated.title != previous.title then [Title] else [])
    + (if updated.description != previous.description then [Description] else [])
    + (if updated.status != previous.status then [Status] else [])
    + (if updated.priority != previous.priority then [Priority] else [])
  }

  /** `_update_events`; a definition is at hand whenever the status can change. */
  function UpdateEvents(updated: Task, previous: Task, engine: Option<Definition>): seq<Event>
    requires updated.status != previous.status ==> engine.Some? && KnownName(engine.value, updated.status)
  {
    var changed := ChangedFields(updated, previous);
    if changed == [] then []
    else if updated.status == previous.status then [TaskUpdated(updated, previous, changed)]
    else
      [TaskUpdated(updated, previous, changed), TaskStatusChanged(updated, previous.status, updated.status)]
      + if Completes(engine.value, updated.status) then [TaskCompleted(updated)] else []
  }

  /** An edit of a lawful row stages events exactly when it changes the row. */
  lemma UnchangedRow(fold: Fold, updated: Task, previous: Task, engine: Option<Definition>)
    requires updated.id == previous.id && KeyLaw(fold, updated) && KeyLaw(fold, previous)
    requires updated.status != previous.status ==> engine.Some? && KnownName(engine.value, updated.status)
    ensures UpdateEvents(updated, previous, engine) == [] <==> updated == previous
  {
  }

  predicate Differs(f: Field, updated: Task, previous: Task) {
    match f
    case Title => updated.title != previous.title
    case Description => updated.description != previous.description
    case Status => updated.status != previous.status
    case Priority => updated.priority != previous.priority
  }

  function Place(f: Field): nat {
    match f
    case Title => 0
    case Description => 1
    case Status => 2
    case Priority => 3
  }

  /** The changed fields are exactly those whose value differs, each once, in canonical order. */
  lemma ChangedExactly(updated: Task, previous: Task)
    ensures forall f :: f in ChangedFields(updated, previous) <==> Differs(f, updated, previous)
    ensures forall i, j :: 0 <= i < j < |ChangedFields(updated, previous)| ==>
      Place(ChangedFields(updated, previous)[i]) < Place(ChangedFields(updated, previous)[j])
  {
  }

  /** The events of an edit, in order: the update when some field differs, the status change when the
      status does, the completion when it moved into a state that completes; and no other. */
  lemma EventsSayWhatMoved(updated: Task, previous: Task, engine: Option<Definition>)
    requires updated.status != previous.status ==> engine.Some? && KnownName(engine.value, updated.status)
    ensures
      var events := UpdateEvents(updated, previous, engine);
      var edited := exists f :: Differs(f, updated, previous);
      var moved := updated.status != previous.status;
      var completed := moved && Completes(engine.value, updated.status);
      && |events| == (if edited then 1 else 0) + (if moved then 1 else 0) + (if completed then 1 else 0)
      && (edited ==> events[0] == TaskUpdated(updated, previous, ChangedFields(updated, previous)))
      && (moved ==> edited && events[1] == TaskStatusChanged(updated, previous.status, updated.status))
      && (completed ==> events[2] == TaskCompleted(updated))
  {
    hide Completes;
    ChangedExactly(updated, previous);
    var changed := ChangedFields(updated, previous);
    if changed != [] { assert changed[0] in changed && Differs(changed[0], updated, previous); }
    if updated.status != previous.status { assert Differs(Status, updated, previous); }
  }

  // ----- Queries over the task table -----

  function InState(tasks: map<nat, Task>, status: string): set<nat> {
    set id | id in tasks && tasks[id].status == status
  }

  function CountIn(tasks: map<nat, Task>, status: string): nat {
    |InState(tasks, status)|
  }

  /** `count_by_status`. */
  function CountByStatus(tasks: map<nat, Task>): map<string, nat> {
    map status | status in (set id | id in tasks :: tasks[id].status) :: CountIn(tasks, status)
  }

  /** The occupancy a decision is handed: the counts, or nothing when the engine needs none. */
  function Occupancy(tasks: map<nat, Task>, engine: Definition, fromStatus: Option<string>, toStatus: Option<string>): map<string, nat>
    requires ValidDefinition(engine)
  {
    if NeedsOccupancy(engine, fromStatus, toStatus) then CountByStatus(tasks) else map[]
  }

  /** No other row carries this title key. */
  predicate KeyFree(tasks: map<nat, Task>, id: nat, key: string) {
    forall other :: other in tasks && other != id ==> tasks[other].titleKey != key
  }

  /** What committing a tracked row does to the stored one: only columns whose value moved since
      the row was read are written. */
  function Merge(current: Task, read: Task, updated: Task): Task {
    Task(current.id,
         if updated.title != read.title then updated.title else current.title,
         if updated.titleKey != read.titleKey then updated.titleKey else current.titleKey,
         if updated.description != read.description then updated.description else current.description,
         if updated.status != read.status then updated.status else current.status,
         if updated.priority != read.priority then updated.priority else current.priority)
  }

  /** With nothing in between, committing stores the edited row. */
  lemma MergeAlone(read: Task, updated: Task)
    requires read.id == updated.id
    ensures Merge(read, read, updated) == updated
  {
  }

  /** Column-wise commits keep `title_key == normalize(title)` except in one case, and exactly
      there: a rename that keeps the key (letter case only) committed over a row whose key has
      moved since it was read. */
  lemma MergeKeepsKeyLaw(fold: Fold, current: Task, read: Task, updated: Task)
    requires KeyLaw(fold, current) && KeyLaw(fold, read) && KeyLaw(fold, updated)
    ensures KeyLaw(fold, Merge(current, read, updated)) <==>
      updated.title == read.title || updated.titleKey != read.titleKey || current.titleKey == read.titleKey
  {
    var merged := Merge(current, read, updated);
    if updated.title != read.title && updated.titleKey == read.titleKey {
      assert merged.title == updated.title && merged.titleKey == current.titleKey;
    }
  }
}
