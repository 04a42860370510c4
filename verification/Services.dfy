/** The task and tag services over one session. Each request is proved to answer, and to leave
    committed, what `UseCases` says: so no query's own flush ever raises, and a title clash is
    always a `DuplicateTask` with nothing persisted. */
module Services {
  import opened Wrappers
  import opened Definitions
  import opened Engine
  import opened Tasks
  import opened Store
  import opened TagLaws
  import opened StoreLaws
  import opened UseCases
  import opened Sessions
  import opened Repositories

  function Listed<T>(value: Option<T>): seq<T> {
    if value.Some? then [value.value] else []
  }

  /** What a step returns unless the one before it raised. */
  function Unless<T>(failure: Option<ServiceError>, value: T): Result<T, ServiceError> {
    if failure.Some? then Err(failure.value) else Ok(value)
  }

  function Raw(violation: Option<Integrity>): Option<ServiceError> {
    if violation.Some? then Some(RawIntegrity(violation.value)) else None
  }

  /** Minting tags for non-blank names never violates a constraint. */
  lemma MintingViolatesNothing(fold: Fold, t: Tables, names: seq<string>)
    requires TagsOk(fold, t.tags, t.next) && Violation(t).None? && NoneBlank(names)
    ensures
      var v := Resolved(fold, t.tags, t.next, names);
      Violation(t.(tags := v.tags, next := v.next)).None?
  {
    hide TagOk, NoneBlank, Resolved;
    ResolveLaws(fold, t.tags, t.next, names);
  }

  class TaskService {
    const session: Session
    const tasks: TaskRepository
    const tags: TagRepository
    const active: Option<Definition>   // what `get_active` finds for this request
    const fold: Fold

    ghost predicate Wired() {
      Usable(active) && tasks.session == session && tags.session == session && tags.fold == fold
    }

    /** A request starts with nothing pending, on a store no earlier request has damaged. */
    ghost predicate Ready()
      reads session
    {
      Wired() && session.Effective() == session.committed && StoreOk(fold, session.committed)
    }

    constructor (session: Session, active: Option<Definition>, fold: Fold)
      requires Usable(active)
      ensures Wired() && this.session == session && this.active == active && this.fold == fold
    {
      this.session, this.active, this.fold := session, active, fold;
      tasks := new TaskRepository(session);
      tags := new TagRepository(session, fold);
    }

    // ----- The private steps -----

    /** `_context`: the counts only when the engine says the write can hit a limit. */
    method OccupancyFor(engine: Definition, fromStatus: Option<string>, toStatus: Option<string>)
      returns (r: Result<map<string, nat>, ServiceError>)
      requires Wired() && ValidDefinition(engine)
      modifies session
      ensures session.committed == old(session.committed)
      ensures Violation(old(session.Effective())).None? ==>
        && session.Effective() == old(session.Effective())
        && r == Ok(Occupancy(session.Effective().tasks, engine, fromStatus, toStatus))
      ensures Violation(old(session.Effective())).Some? ==>
        if NeedsOccupancy(engine, fromStatus, toStatus)
        then r == Err(RawIntegrity(Violation(old(session.Effective())).value)) && session.Effective() == session.committed
        else r == Ok(map[]) && session.Effective() == old(session.Effective())
    {
      hide Violation, session.Effective, Tasks.CountByStatus;
      if NeedsOccupancy(engine, fromStatus, toStatus) { r := tasks.CountByStatus(); } else { r := Ok(map[]); }
    }

    /** `_stage_tags`. With an edit already pending that takes another task's title, its first
        query raises the raw violation: the reason the callers stage tags before they edit. */
    method StageTags(taskId: nat, names: Option<seq<string>>) returns (r: Result<Option<Event>, ServiceError>)
      requires Wired() && TagsOk(fold, session.Effective().tags, session.Effective().next)
      modifies session
      ensures session.committed == old(session.committed)
      ensures names.None? ==> r == Ok(None) && session.Effective() == old(session.Effective())
      ensures names.Some? && Violation(old(session.Effective())).Some? ==>
        r == Err(RawIntegrity(Violation(old(session.Effective())).value)) && session.Effective() == session.committed
      ensures Violation(old(session.Effective())).None? ==>
        match StagedTags(fold, old(session.Effective()), taskId, names)
        case None => r == Err(BlankTagName)
        case Some((after, events)) => r.Ok? && Listed(r.value) == events && session.Effective() == after
    {
      if names.None? { return Ok(None); }
      hide Violation, session.Effective, TagOk, Resolved, Relinked;
      ghost var t := session.Effective();
      var before := tags.NamesForTask(taskId);
      if before.Err? { return Err(before.error); }
      var resolved := tags.Resolve(names.value);
      if resolved.Err? { return Err(resolved.error); }
      var after := Spellings(names.value);
      if before.value == after { return Ok(None); }
      MintingViolatesNothing(fold, t, names.value);
      var failure := tags.SetForTask(taskId, resolved.value.Values);
      r := Unless(failure, Some(TaskTagsChanged(taskId, after, after - before.value, before.value - after)));
    }

    /** A duplicate echoes the caller's title, not the normalised one the repository saw. */
    function Echoed(failure: Option<ServiceError>, rawTitle: string): Option<ServiceError> {
      if failure.Some? && failure.value.DuplicateTask? then Some(DuplicateTask(rawTitle)) else failure
    }

    method StageNew(task: Task, rawTitle: string) returns (failure: Option<ServiceError>)
      requires Wired()
      modifies session
      ensures session.committed == old(session.committed)
      ensures
        var after := Overwrite(old(session.Effective()), task);
        && failure == Translated(Violation(after), rawTitle)
        && session.Effective() == if failure.None? then after else session.committed
    {
      hide Violation, session.Effective;
      failure := tasks.Stage(task);
      failure := Echoed(failure, rawTitle);
    }

    method Persist(task: Task, events: seq<Event>, rawTitle: string) returns (failure: Option<ServiceError>)
      requires Wired()
      modifies session
      ensures
        var after := Publish(Overwrite(old(session.Effective()), task), events);
        && failure == Translated(Violation(after), rawTitle)
        && session.committed == if failure.None? then after else old(session.committed)
    {
      hide Violation, session.Effective;
      failure := tasks.Persist(task, events);
      failure := Echoed(failure, rawTitle);
    }

    method PersistUpdate(updated: Task, previous: Task, engine: Option<Definition>, rawTitle: string, tagEvent: Option<Event>)
      returns (failure: Option<ServiceError>)
      requires Wired()
      requires updated.status != previous.status ==> engine.Some? && KnownName(engine.value, updated.status)
      modifies session
      ensures
        var events := UpdateEvents(updated, previous, engine) + Listed(tagEvent);
        var after := Publish(Overwrite(old(session.Effective()), updated), events);
        if events == [] then failure.None? && session.committed == old(session.committed)
        else
          && failure == Translated(Violation(after), rawTitle)
          && session.committed == if failure.None? then after else old(session.committed)
    {
      hide Violation, session.Effective;
      var events := UpdateEvents(updated, previous, engine);
      events := events + Listed(tagEvent);
      if events == [] { return None; }
      failure := Persist(updated, events, rawTitle);
    }

    // ----- The use-cases -----

    method Create(input: Input) returns (r: Result<Task, ServiceError>)
      requires Ready()
      modifies session
      ensures
        var outcome := CreateOutcome(fold, old(session.committed), active, input);
        r == outcome.result && session.committed == outcome.tables
    {
      hide StoreOk, Violation, session.Effective, StagedTags, ResolveEntry, Occupancy, KeyFree, KeyLaw;
      ghost var t := session.committed;
      StoreHasNoViolation(fold, t);
      if active.None? { return Err(NoActiveWorkflow); }
      var counts := OccupancyFor(active.value, None, input.status);
      match counts
      case Err(e) => return Err(e);
      case Ok(occupancy) =>
        var entry := ResolveEntry(active.value, input.status, Context({}, occupancy));
        match entry
        case Err(refusal) => return Err(Refused(refusal));
        case Ok(status) =>
          var id := session.FreshId();
          var task := FromInput(fold, id, input.title, input.description, status, input.priority);
          if task.None? { return Err(BlankTitle); }
          r := Enter(t, task.value, input);
    }

    /** The rest of a create: insert, stage the tags if any, commit. */
    method Enter(ghost t: Tables, task: Task, input: Input) returns (r: Result<Task, ServiceError>)
      requires Wired() && StoreOk(fold, t) && session.committed == t && session.Effective() == t.(next := t.next + 1)
      requires task.id == t.next && KeyLaw(fold, task)
      modifies session
      ensures
        if !KeyFree(t.tasks, task.id, task.titleKey) then r == Err(DuplicateTask(input.title)) && session.committed == t
        else
          match StagedTags(fold, Insert(t, task), task.id, TagsToStage(input.tags))
          case None => r == Err(BlankTagName) && session.committed == t
          case Some((staged, tagEvents)) => r == Ok(task) && session.committed == Publish(staged, [TaskCreated(task)] + tagEvents)
    {
      hide TasksOk, TagsOk, LinksHold, Violation, session.Effective, StagedTags, KeyFree, KeyLaw;
      ghost var added := Insert(t, task);
      Inserting(fold, t, task);
      if KeyFree(t.tasks, task.id, task.titleKey) { Staging(fold, added, task.id, TagsToStage(input.tags)); }
      Publishing(fold, added, [TaskCreated(task)]);
      assert Overwrite(session.Effective(), task) == added;
      if TagsToStage(input.tags).None? {
        var failure := Persist(task, [TaskCreated(task)], input.title);
        return Unless(failure, task);
      }
      var failure := StageNew(task, input.title);
      if failure.Some? { return Err(failure.value); }
      var tagEvent := StageTags(task.id, input.tags);
      match tagEvent
      case Err(e) => return Err(e);
      case Ok(event) =>
        ghost var staged := session.Effective();
        Recommitting(fold, staged, task, [TaskCreated(task)] + Listed(event));
        failure := Persist(task, [TaskCreated(task)] + Listed(event), input.title);
        r := Unless(failure, task);
    }

    method Replace(id: nat, input: Input, roles: set<string>) returns (r: Result<Task, ServiceError>)
      requires Ready()
      modifies session
      ensures
        var outcome := ReplaceOutcome(fold, old(session.committed), active, id, input, roles);
        r == outcome.result && session.committed == outcome.tables
    {
      hide TasksOk, TagsOk, LinksHold, Violation, session.Effective, StagedTags, ApplyReplace, UpdateOutcome, MoveRefusal, KeyLaw, StoreOk;
      ghost var t := session.committed;
      StoreHasNoViolation(fold, t);
      if active.None? { return Err(NoActiveWorkflow); }
      var found := tasks.Get(id);
      match found
      case Err(e) => return Err(e);
      case Ok(task) =>
        var target := Or(input.status, DefaultEntry(active.value));
        var refused := CheckEdit(t, active.value, task, target, roles);
        if refused.Some? { return Err(refused.value); }
        LawfulRow(fold, t, id);
        Staging(fold, t, id, Some(Or(input.tags, [])));
        var tagEvent := StageTags(id, Some(Or(input.tags, [])));
        match tagEvent
        case Err(e) => return Err(e);
        case Ok(event) =>
          var updated := ApplyReplace(fold, task, input.title, input.description, target, input.priority);
          if updated.None? { return Err(BlankTitle); }
          r := Edit(t, updated.value, task, active, input.title, event);
    }

    /** A patch that does not name `status` reads no definition and checks no move. */
    method Patch(id: nat, fields: Fields, roles: set<string>) returns (r: Result<Task, ServiceError>)
      requires Ready()
      modifies session
      ensures
        var outcome := PatchOutcome(fold, old(session.committed), active, id, fields, roles);
        r == outcome.result && session.committed == outcome.tables
    {
      hide TasksOk, TagsOk, LinksHold, Violation, session.Effective, StagedTags, ApplyPatch, UpdateOutcome, MoveRefusal, KeyLaw, StoreOk;
      ghost var t := session.committed;
      StoreHasNoViolation(fold, t);
      if fields == NoFields { return Err(EmptyUpdate); }
      var status := fields.patch.status;
      if status.Some? && active.None? { return Err(NoActiveWorkflow); }
      var found := tasks.Get(id);
      match found
      case Err(e) => return Err(e);
      case Ok(task) =>
        if status.Some? {
          var refused := CheckEdit(t, active.value, task, status.value, roles);
          if refused.Some? { return Err(refused.value); }
        }
        LawfulRow(fold, t, id);
        Staging(fold, t, id, Or(fields.tags, None));
        var tagEvent := StageTags(id, Or(fields.tags, None));
        match tagEvent
        case Err(e) => return Err(e);
        case Ok(event) =>
          var updated := ApplyPatch(fold, task, fields.patch);
          if updated.None? { return Err(BlankTitle); }
          r := Edit(t, updated.value, task, PatchEngine(active, fields), Or(fields.patch.title, updated.value.title), event);
    }

    /** The context and the engine's verdict on one edit. */
    method CheckEdit(ghost t: Tables, engine: Definition, task: Task, target: string, roles: set<string>) returns (refused: Option<ServiceError>)
      requires Wired() && ValidDefinition(engine) && session.Effective() == session.committed == t && Violation(t).None?
      modifies session
      ensures session.committed == session.Effective() == t
      ensures refused == match MoveRefusal(t, engine, task.status, target, roles)
                         case Some(refusal) => Some(Refused(refusal))
                         case None => None
    {
      hide Violation, session.Effective, Occupancy, CheckMove;
      var counts := OccupancyFor(engine, Some(task.status), Some(target));
      match counts
      case Err(e) => return Some(e);
      case Ok(occupancy) =>
        var refusal := CheckMove(engine, task.status, target, Context(roles, occupancy));
        refused := if refusal.Some? then Some(Refused(refusal.value)) else None;
    }

    /** The rest of an update, once the tags are staged: edit the tracked row, then commit if
        anything moved. */
    method Edit(ghost t: Tables, updated: Task, previous: Task, engine: Option<Definition>, rawTitle: string, tagEvent: Option<Event>)
      returns (r: Result<Task, ServiceError>)
      requires Wired() && session.committed == t && StoreOk(fold, session.Effective()) && session.Effective().tasks == t.tasks
      requires updated.id in t.tasks && KeyLaw(fold, updated)
      requires updated.status != previous.status ==> engine.Some? && KnownName(engine.value, updated.status)
      modifies session
      ensures
        var outcome := UpdateOutcome(t, old(session.Effective()), updated, previous, engine, rawTitle, Listed(tagEvent));
        r == outcome.result && session.committed == outcome.tables
    {
      hide StoreOk, Violation, session.Effective, KeyFree, KeyLaw, UpdateEvents;
      ghost var staged := session.Effective();
      Overwriting(fold, staged, updated);
      Publishing(fold, Overwrite(staged, updated), UpdateEvents(updated, previous, engine) + Listed(tagEvent));
      assert Overwrite(Overwrite(staged, updated), updated) == Overwrite(staged, updated);
      session.PutTask(updated);
      var failure := PersistUpdate(updated, previous, engine, rawTitle, tagEvent);
      r := Unless(failure, updated);
    }

    method Delete(id: nat) returns (r: Result<(), ServiceError>)
      requires Ready()
      modifies session
      ensures
        var outcome := DeleteOutcome(old(session.committed), id);
        r == outcome.result && session.committed == outcome.tables
    {
      hide StoreOk, Violation, session.Effective, TagKeysDistinct;
      ghost var t := session.committed;
      StoreHasNoViolation(fold, t);
      var found := tasks.Get(id);
      match found
      case Err(e) => return Err(e);
      case Ok(task) =>
        LawfulRow(fold, t, id);
        Dropping(fold, t, id);
        StoreHasNoViolation(fold, DropTask(t, id));
        Publishing(fold, DropTask(t, id), [TaskDeleted(task)]);
        var violation := tasks.Remove(task, [TaskDeleted(task)]);
        r := Unless(Raw(violation), ());
    }
  }

  class TagService {
    const tags: TagRepository

    constructor (tags: TagRepository)
      ensures this.tags == tags
    {
      this.tags := tags;
    }

    /** Refuse while any task holds the tag, with the count. */
    method Delete(id: nat) returns (r: Result<(), ServiceError>)
      requires tags.session.Effective() == tags.session.committed && StoreOk(tags.fold, tags.session.committed)
      modifies tags.session
      ensures
        var outcome := DeleteTagOutcome(old(tags.session.committed), id);
        r == outcome.result && tags.session.committed == outcome.tables
    {
      var session := tags.session;
      hide StoreOk, Violation, session.Effective, TaskCount;
      ghost var t := session.committed;
      StoreHasNoViolation(tags.fold, t);
      var found := tags.Get(id);
      match found
      case Err(e) => return Err(e);
      case Ok(tag) =>
        var inUse := tags.TaskCount(id);
        match inUse
        case Err(e) => return Err(e);
        case Ok(n) =>
          if n > 0 { return Err(TagInUse(id, tag.name, n)); }
          Dropping(tags.fold, t, id);
          StoreHasNoViolation(tags.fold, DropTag(t, id));
          Publishing(tags.fold, DropTag(t, id), [TagDeleted(id, tag.name)]);
          var violation := tags.Remove(id, [TagDeleted(id, tag.name)]);
          r := Unless(Raw(violation), ());
    }
  }
}
