/** The task and tag use-cases on one serial view of the tables: which error each input meets, in
    the order the service looks, and otherwise the tables and events that are committed. */
module UseCases {
  import opened Wrappers
  import opened Definitions
  import opened Engine
  import opened Tasks
  import opened Store

  datatype ServiceError =
    | NoActiveWorkflow
    | TaskNotFound(id: nat)
    | EmptyUpdate
    | Refused(refusal: Refusal)
    | BlankTitle
    | BlankTagName
    | DuplicateTask(title: string)   // the caller's title, verbatim
    | TagNotFound(id: nat)
    | TagInUse(id: nat, name: string, tasks: nat)
    | RawIntegrity(cause: Integrity) // an untranslated constraint violation

  datatype Outcome<T> = Outcome(result: Result<T, ServiceError>, tables: Tables)

  /** The body of a create or a full replacement. */
  datatype Input = Input(
    title: string, description: Option<string>, status: Option<string>, priority: int, tags: Option<seq<string>>)

  /** A partial update. `tags` distinguishes an omitted member from an explicit null. */
  datatype Fields = Fields(patch: Patch, tags: Option<Option<seq<string>>>)

  const NoFields := Fields(Patch(None, None, None, None), None)

  /** A definition the engine can wrap, when there is one. */
  predicate Usable(active: Option<Definition>) {
    active.Some? ==> ValidDefinition(active.value)
  }

  function Stop<T>(t: Tables, e: ServiceError): Outcome<T> {
    Outcome(Err(e), t)
  }

  function Publish(t: Tables, events: seq<Event>): Tables {
    t.(outbox := t.outbox + events)
  }

  function Insert(t: Tables, task: Task): Tables {
    t.(tasks := t.tasks[task.id := task], next := t.next + 1)
  }

  function Overwrite(t: Tables, task: Task): Tables {
    t.(tasks := t.tasks[task.id := task])
  }

  /** Deleting a row takes its links along. */
  function DropTask(t: Tables, id: nat): Tables {
    t.(tasks := t.tasks - {id}, links := set l | l in t.links && l.0 != id)
  }

  function DropTag(t: Tables, id: nat): Tables {
    t.(tags := t.tags - {id}, links := set l | l in t.links && l.1 != id)
  }

  function CreateEntry(t: Tables, d: Definition, status: Option<string>): Result<string, Refusal>
    requires ValidDefinition(d)
  {
    ResolveEntry(d, status, Context({}, Occupancy(t.tasks, d, None, status)))
  }

  function MoveRefusal(t: Tables, d: Definition, fromStatus: string, toStatus: string, roles: set<string>): (r: Option<Refusal>)
    requires ValidDefinition(d)
    ensures r.None? ==> KnownName(d, toStatus)
  {
    CheckMove(d, fromStatus, toStatus, Context(roles, Occupancy(t.tasks, d, Some(fromStatus), Some(toStatus))))
  }

  /** A create stages tags only when the list is there and not empty. */
  function TagsToStage(tags: Option<seq<string>>): Option<seq<string>> {
    if tags == Some([]) then None else tags
  }

  function CreateOutcome(fold: Fold, t: Tables, active: Option<Definition>, input: Input): Outcome<Task>
    requires Usable(active) && TagKeysDistinct(t.tags)
  {
    if active.None? then Stop(t, NoActiveWorkflow)
    else
      match CreateEntry(t, active.value, input.status)
      case Err(refusal) => Stop(t, Refused(refusal))
      case Ok(entry) =>
        match FromInput(fold, t.next, input.title, input.description, entry, input.priority)
        case None => Stop(t, BlankTitle)
        case Some(task) =>
          if !KeyFree(t.tasks, task.id, task.titleKey) then Stop(t, DuplicateTask(input.title))
          else
            match StagedTags(fold, Insert(t, task), task.id, TagsToStage(input.tags))
            case None => Stop(t, BlankTagName)
            case Some((staged, tagEvents)) => Outcome(Ok(task), Publish(staged, [TaskCreated(task)] + tagEvents))
  }

  /** `_persist_update`: nothing when nothing moved; else the commit, or the clash it meets. */
  function UpdateOutcome(t: Tables, staged: Tables, updated: Task, previous: Task, engine: Option<Definition>,
                         rawTitle: string, tagEvents: seq<Event>): Outcome<Task>
    requires updated.status != previous.status ==> engine.Some? && KnownName(engine.value, updated.status)
  {
    var events := UpdateEvents(updated, previous, engine) + tagEvents;
    if events == [] then Outcome(Ok(updated), t)
    else if !KeyFree(t.tasks, updated.id, updated.titleKey) then Stop(t, DuplicateTask(rawTitle))
    else Outcome(Ok(updated), Publish(Overwrite(staged, updated), events))
  }

  /** Replacing is total: an omitted status is the default entry, omitted tags are no tags. */
  function ReplaceOutcome(fold: Fold, t: Tables, active: Option<Definition>, id: nat, input: Input, roles: set<string>): Outcome<Task>
    requires Usable(active) && TagKeysDistinct(t.tags)
  {
    if active.None? then Stop(t, NoActiveWorkflow)
    else if id !in t.tasks then Stop(t, TaskNotFound(id))
    else
      var task, target := t.tasks[id], Or(input.status, DefaultEntry(active.value));
      match MoveRefusal(t, active.value, task.status, target, roles)
      case Some(refusal) => Stop(t, Refused(refusal))
      case None =>
        match StagedTags(fold, t, id, Some(Or(input.tags, [])))
        case None => Stop(t, BlankTagName)
        case Some((staged, tagEvents)) =>
          match ApplyReplace(fold, task, input.title, input.description, target, input.priority)
          case None => Stop(t, BlankTitle)
          case Some(updated) => UpdateOutcome(t, staged, updated, task, active, input.title, tagEvents)
  }

  /** The definition a patch consults: only a patch that names `status` reads one. */
  function PatchEngine(active: Option<Definition>, fields: Fields): Option<Definition> {
    if fields.patch.status.Some? then active else None
  }

  function PatchRefusal(t: Tables, active: Option<Definition>, task: Task, fields: Fields, roles: set<string>): (r: Option<Refusal>)
    requires Usable(active) && (fields.patch.status.Some? ==> active.Some?)
    ensures r.None? && fields.patch.status.Some? ==> KnownName(active.value, fields.patch.status.value)
  {
    if fields.patch.status.None? then None
    else MoveRefusal(t, active.value, task.status, fields.patch.status.value, roles)
  }

  function PatchOutcome(fold: Fold, t: Tables, active: Option<Definition>, id: nat, fields: Fields, roles: set<string>): Outcome<Task>
    requires Usable(active) && TagKeysDistinct(t.tags)
  {
    if fields == NoFields then Stop(t, EmptyUpdate)
    else if fields.patch.status.Some? && active.None? then Stop(t, NoActiveWorkflow)
    else if id !in t.tasks then Stop(t, TaskNotFound(id))
    else
      var task := t.tasks[id];
      match PatchRefusal(t, active, task, fields, roles)
      case Some(refusal) => Stop(t, Refused(refusal))
      case None =>
        match StagedTags(fold, t, id, Or(fields.tags, None))
        case None => Stop(t, BlankTagName)
        case Some((staged, tagEvents)) =>
          match ApplyPatch(fold, task, fields.patch)
          case None => Stop(t, BlankTitle)
          case Some(updated) =>
            UpdateOutcome(t, staged, updated, task, PatchEngine(active, fields), Or(fields.patch.title, updated.title), tagEvents)
  }

  function DeleteOutcome(t: Tables, id: nat): Outcome<()> {
    if id !in t.tasks then Stop(t, TaskNotFound(id))
    else Outcome(Ok(()), Publish(DropTask(t, id), [TaskDeleted(t.tasks[id])]))
  }

  function DeleteTagOutcome(t: Tables, id: nat): Outcome<()> {
    if id !in t.tags then Stop(t, TagNotFound(id))
    else if TaskCount(t, id) > 0 then Stop(t, TagInUse(id, t.tags[id].name, TaskCount(t, id)))
    else Outcome(Ok(()), Publish(DropTag(t, id), [TagDeleted(id, t.tags[id].name)]))
  }
}
