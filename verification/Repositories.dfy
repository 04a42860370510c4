/** The task and tag repositories over one session. */
module Repositories {
  import opened Wrappers
  import opened Text
  import opened Tasks
  import opened Store
  import opened TagLaws
  import opened UseCases
  import opened Sessions

  /** A violated title-key constraint is a duplicate task; anything else stays raw. */
  function Translated(violation: Option<Integrity>, title: string): Option<ServiceError> {
    match violation
    case None => None
    case Some(TitleKeyTaken) => Some(DuplicateTask(title))
    case Some(cause) => Some(RawIntegrity(cause))
  }

  function FetchedTask(t: Tables, id: nat): Result<Task, ServiceError> {
    if Violation(t).Some? then Err(RawIntegrity(Violation(t).value))
    else if id in t.tasks then Ok(t.tasks[id])
    else Err(TaskNotFound(id))
  }

  function FetchedTag(t: Tables, id: nat): Result<Tag, ServiceError> {
    if Violation(t).Some? then Err(RawIntegrity(Violation(t).value))
    else if id in t.tags then Ok(t.tags[id])
    else Err(TagNotFound(id))
  }

  class TaskRepository {
    const session: Session

    constructor (session: Session)
      ensures this.session == session
    {
      this.session := session;
    }

    method Get(id: nat) returns (r: Result<Task, ServiceError>)
      modifies session
      ensures session.Queried()
      ensures r == FetchedTask(old(session.Effective()), id)
    {
      var found := session.GetTask(id);
      match found
      case Err(cause) => r := Err(RawIntegrity(cause));
      case Ok(None) => r := Err(TaskNotFound(id));
      case Ok(Some(task)) => r := Ok(task);
    }

    method CountByStatus() returns (r: Result<map<string, nat>, ServiceError>)
      modifies session
      ensures session.Queried()
      ensures Violation(old(session.Effective())).None? ==> r == Ok(Tasks.CountByStatus(old(session.Effective()).tasks))
      ensures Violation(old(session.Effective())).Some? ==> r == Err(RawIntegrity(Violation(old(session.Effective())).value))
    {
      var counts := session.SelectStatusCounts();
      r := if counts.Ok? then Ok(counts.value) else Err(RawIntegrity(counts.error));
    }

    /** Add the row and flush it, inside the open transaction. */
    method Stage(task: Task) returns (failure: Option<ServiceError>)
      modifies session
      ensures session.committed == old(session.committed) && session.Clean()
      ensures
        var after := Overwrite(old(session.Effective()), task);
        && failure == Translated(Violation(after), task.title)
        && session.Effective() == if failure.None? then after else session.committed
    {
      session.PutTask(task);
      var violation := session.Flush();
      failure := Translated(violation, task.title);
    }

    /** The row and its events, in one commit: both, or neither and the translated error. */
    method Persist(task: Task, events: seq<Event>) returns (failure: Option<ServiceError>)
      modifies session
      ensures
        var after := Publish(Overwrite(old(session.Effective()), task), events);
        && failure == Translated(Violation(after), task.title)
        && session.committed == if failure.None? then after else old(session.committed)
      ensures session.Effective() == session.committed
    {
      session.PutTask(task);
      session.StageEvents(events);
      var violation := session.Commit();
      failure := Translated(violation, task.title);
    }

    method Remove(task: Task, events: seq<Event>) returns (violation: Option<Integrity>)
      requires session.Clean()
      modifies session
      ensures
        var after := Publish(DropTask(old(session.Effective()), task.id), events);
        && violation == Violation(after)
        && session.committed == if violation.None? then after else old(session.committed)
    {
      session.DeleteTask(task.id);
      session.StageEvents(events);
      violation := session.Commit();
    }
  }

  class TagRepository {
    const session: Session
    const fold: Fold

    constructor (session: Session, fold: Fold)
      ensures this.session == session && this.fold == fold
    {
      this.session, this.fold := session, fold;
    }

    method NamesForTask(taskId: nat) returns (r: Result<set<string>, ServiceError>)
      modifies session
      ensures session.Queried()
      ensures Violation(old(session.Effective())).None? ==> r == Ok(NamesFor(old(session.Effective()), taskId))
      ensures Violation(old(session.Effective())).Some? ==> r == Err(RawIntegrity(Violation(old(session.Effective())).value))
    {
      var names := session.SelectTagNames(taskId);
      r := if names.Ok? then Ok(names.value) else Err(RawIntegrity(names.error));
    }

    /** The `wanted` dictionary, or nothing at the first blank name. */
    method Wanted(names: seq<string>) returns (wanted: Option<Wanted>)
      ensures wanted == if NoneBlank(names) then Some(WantedOf(fold, names)) else None
    {
      var entries: Wanted := [];
      for i := 0 to |names|
        invariant NoneBlank(names[..i]) && entries == WantedOf(fold, names[..i])
      {
        StripLaws(names[i]);
        if Strip(names[i]) == [] { return None; }
        assert names[..i + 1][..i] == names[..i];
        var key := NormalKey(fold, names[i]);
        if key !in KeysOf(entries) { entries := entries + [(key, Strip(names[i]))]; }
      }
      assert names[..|names|] == names;
      return Some(entries);
    }

    /** `resolve`: key to id, minting what is missing as pending rows. */
    method Resolve(names: seq<string>) returns (r: Result<map<string, nat>, ServiceError>)
      modifies session
      ensures session.committed == old(session.committed)
      ensures !NoneBlank(names) ==> r == Err(BlankTagName) && session.Effective() == old(session.Effective())
      ensures NoneBlank(names) && Violation(old(session.Effective())).None? ==>
        var t := old(session.Effective());
        var v := Resolved(fold, t.tags, t.next, names);
        r == Ok(v.ids) && session.Effective() == t.(tags := v.tags, next := v.next)
      ensures NoneBlank(names) && names != [] && Violation(old(session.Effective())).Some? ==>
        r == Err(RawIntegrity(Violation(old(session.Effective())).value)) && session.Effective() == session.committed
    {
      var wanted := Wanted(names);
      if wanted.None? { return Err(BlankTagName); }
      if wanted.value == [] { WantedEmpty(fold, names); return Ok(map[]); }
      hide TitleKeysDistinct, TagKeysDistinct, LinksHold, session.Effective;
      var found := session.SelectTagIds(KeysOf(wanted.value));
      if found.Err? { return Err(RawIntegrity(found.error)); }
      var ids := MintMissing(wanted.value, found.value);
      r := Ok(ids);
    }

    /** The second loop of `resolve`: a pending tag for every wanted key without one. */
    method MintMissing(wanted: Wanted, found: map<string, nat>) returns (ids: map<string, nat>)
      modifies session
      ensures session.committed == old(session.committed)
      ensures
        var t := old(session.Effective());
        var v := Mint(Vocabulary(t.tags, found, t.next), wanted);
        ids == v.ids && session.Effective() == t.(tags := v.tags, next := v.next)
    {
      ids := found;
      ghost var t := session.Effective();
      ghost var start := Vocabulary(t.tags, found, t.next);
      for i := 0 to |wanted|
        invariant session.committed == old(session.committed)
        invariant
          var v := Mint(start, wanted[..i]);
          ids == v.ids && session.Effective() == t.(tags := v.tags, next := v.next)
      {
        assert wanted[..i + 1][..i] == wanted[..i];
        var (key, display) := wanted[i];
        if key !in ids {
          var id := session.AddTag(display, key);
          ids := ids[key := id];
        }
      }
      assert wanted[..|wanted|] == wanted;
    }

    /** `set_for_task`: clear the task's links at once, then add the new ones as pending rows. */
    method SetForTask(taskId: nat, tagIds: set<nat>) returns (failure: Option<ServiceError>)
      modifies session
      ensures session.committed == old(session.committed)
      ensures Violation(old(session.Effective())).None? ==>
        && failure.None?
        && session.Effective() == old(session.Effective()).(links := Relinked(old(session.Effective()).links, taskId, tagIds))
      ensures Violation(old(session.Effective())).Some? ==>
        failure == Some(RawIntegrity(Violation(old(session.Effective())).value)) && session.Effective() == session.committed
    {
      hide Violation;
      var violation := session.DeleteLinks(taskId);
      if violation.Some? { return Some(RawIntegrity(violation.value)); }
      AddLinks(taskId, tagIds);
      failure := None;
    }

    method AddLinks(taskId: nat, tagIds: set<nat>)
      modifies session
      ensures session.committed == old(session.committed)
      ensures session.Effective() == old(session.Effective()).(links := old(session.Effective()).links + Relinked({}, taskId, tagIds))
    {
      ghost var t := session.Effective();
      var todo := tagIds;
      while todo != {}
        invariant todo <= tagIds && session.committed == old(session.committed)
        invariant session.Effective() == t.(links := t.links + Relinked({}, taskId, tagIds - todo))
        decreases todo
      {
        var id :| id in todo;
        session.AddLink(taskId, id);
        assert tagIds - (todo - {id}) == tagIds - todo + {id};
        todo := todo - {id};
      }
      assert tagIds - todo == tagIds;
    }

    method Get(id: nat) returns (r: Result<Tag, ServiceError>)
      modifies session
      ensures session.Queried()
      ensures r == FetchedTag(old(session.Effective()), id)
    {
      var found := session.GetTag(id);
      match found
      case Err(cause) => r := Err(RawIntegrity(cause));
      case Ok(None) => r := Err(TagNotFound(id));
      case Ok(Some(tag)) => r := Ok(tag);
    }

    method TaskCount(id: nat) returns (r: Result<nat, ServiceError>)
      modifies session
      ensures session.Queried()
      ensures Violation(old(session.Effective())).None? ==> r == Ok(Store.TaskCount(old(session.Effective()), id))
      ensures Violation(old(session.Effective())).Some? ==> r == Err(RawIntegrity(Violation(old(session.Effective())).value))
    {
      var count := session.SelectTaskCount(id);
      r := if count.Ok? then Ok(count.value) else Err(RawIntegrity(count.error));
    }

    method Remove(id: nat, events: seq<Event>) returns (violation: Option<Integrity>)
      requires session.Clean()
      modifies session
      ensures
        var after := Publish(DropTag(old(session.Effective()), id), events);
        && violation == Violation(after)
        && session.committed == if violation.None? then after else old(session.committed)
    {
      session.DeleteTag(id);
      session.StageEvents(events);
      violation := session.Commit();
    }
  }
}
