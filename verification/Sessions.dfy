/** One unit of work over the tables: pending rows, and the flush every query makes first. A flush
    that violates a constraint rolls the transaction back; the caller sees the raw violation. */
module Sessions {
  import opened Wrappers
  import opened Tasks
  import opened Store
  import opened UseCases

  /** A query's answer: its value, or the violation its own flush ran into. */
  function Answer<T>(t: Tables, value: T): Result<T, Integrity> {
    match Violation(t)
    case Some(cause) => Err(cause)
    case None => Ok(value)
  }

  function FindTask(t: Tables, id: nat): Option<Task> {
    if id in t.tasks then Some(t.tasks[id]) else None
  }

  function FindTag(t: Tables, id: nat): Option<Tag> {
    if id in t.tags then Some(t.tags[id]) else None
  }

  class Session {
    var committed: Tables          // what every other session sees
    var working: Tables            // what has been flushed into the open transaction
    var dirty: map<nat, Task>      // task rows added or edited since
    var newTags: map<nat, Tag>
    var newLinks: set<Link>
    var newEvents: seq<Event>
    var goneTasks: set<nat>
    var goneTags: set<nat>
    var next: nat

    /** What a flush would make of the transaction. */
    function Effective(): Tables
      reads this
    {
      Tables((working.tasks - goneTasks) + dirty,
             (working.tags - goneTags) + newTags,
             (set l | l in working.links && l.0 !in goneTasks && l.1 !in goneTags) + newLinks,
             working.outbox + newEvents,
             next)
    }

    predicate Clean()
      reads this
    {
      && dirty == map[] && newTags == map[] && newLinks == {} && newEvents == []
      && goneTasks == {} && goneTags == {} && next == working.next
    }

    constructor (db: Tables)
      ensures committed == db && Effective() == db && Clean()
    {
      committed, working, next := db, db, db.next;
      dirty, newTags, newLinks, newEvents, goneTasks, goneTags := map[], map[], {}, [], {}, {};
    }

    method Settle(t: Tables)
      modifies this
      ensures working == Effective() == t && committed == old(committed) && Clean()
    {
      working, next := t, t.next;
      dirty, newTags, newLinks, newEvents, goneTasks, goneTags := map[], map[], {}, [], {}, {};
    }

    method Rollback()
      modifies this
      ensures committed == old(committed) && Effective() == committed && Clean()
    {
      Settle(committed);
    }

    method Flush() returns (violation: Option<Integrity>)
      modifies this
      ensures committed == old(committed) && Clean()
      ensures violation == Violation(old(Effective()))
      ensures working == Effective() == if violation.None? then old(Effective()) else committed
    {
      violation := Violation(Effective());
      if violation.None? { Settle(Effective()); } else { Rollback(); }
    }

    method Commit() returns (violation: Option<Integrity>)
      modifies this
      ensures violation == Violation(old(Effective()))
      ensures committed == if violation.None? then old(Effective()) else old(committed)
      ensures Effective() == committed && Clean()
    {
      violation := Flush();
      if violation.None? { committed := working; }
    }

    // ----- Pending changes -----

    method PutTask(task: Task)
      modifies this
      ensures committed == old(committed) && Effective() == Overwrite(old(Effective()), task)
    {
      dirty := dirty[task.id := task];
    }

    /** A task built from input is given its id before the session knows it. */
    method FreshId() returns (id: nat)
      modifies this
      ensures id == old(Effective()).next
      ensures committed == old(committed) && Effective() == old(Effective()).(next := id + 1)
    {
      id, next := next, next + 1;
    }

    method AddTag(name: string, nameKey: string) returns (id: nat)
      modifies this
      ensures id == old(Effective()).next && committed == old(committed)
      ensures Effective() == old(Effective()).(tags := old(Effective()).tags[id := Tag(name, nameKey)], next := id + 1)
    {
      id, next := next, next + 1;
      newTags := newTags[id := Tag(name, nameKey)];
    }

    method AddLink(taskId: nat, tagId: nat)
      modifies this
      ensures committed == old(committed)
      ensures Effective() == old(Effective()).(links := old(Effective()).links + {(taskId, tagId)})
    {
      newLinks := newLinks + {(taskId, tagId)};
    }

    method StageEvents(events: seq<Event>)
      modifies this
      ensures committed == old(committed) && Effective() == Publish(old(Effective()), events)
    {
      newEvents := newEvents + events;
    }

    method DeleteTask(id: nat)
      requires Clean()
      modifies this
      ensures committed == old(committed) && Effective() == DropTask(old(Effective()), id)
    {
      goneTasks := {id};
    }

    method DeleteTag(id: nat)
      requires Clean()
      modifies this
      ensures committed == old(committed) && Effective() == DropTag(old(Effective()), id)
    {
      goneTags := {id};
    }

    // ----- Queries: each flushes first -----

    /** What a query leaves: everything flushed, or everything rolled back. */
    twostate predicate Queried()
      reads this
    {
      && committed == old(committed) && Clean()
      && working == Effective() == if Violation(old(Effective())).None? then old(Effective()) else committed
    }

    method GetTask(id: nat) returns (r: Result<Option<Task>, Integrity>)
      modifies this
      ensures Queried() && r == Answer(old(Effective()), FindTask(old(Effective()), id))
    {
      var v := Flush();
      r := if v.Some? then Err(v.value) else Ok(FindTask(working, id));
    }

    method GetTag(id: nat) returns (r: Result<Option<Tag>, Integrity>)
      modifies this
      ensures Queried() && r == Answer(old(Effective()), FindTag(old(Effective()), id))
    {
      var v := Flush();
      r := if v.Some? then Err(v.value) else Ok(FindTag(working, id));
    }

    method SelectStatusCounts() returns (r: Result<map<string, nat>, Integrity>)
      modifies this
      ensures Queried() && r == Answer(old(Effective()), CountByStatus(old(Effective()).tasks))
    {
      var v := Flush();
      r := if v.Some? then Err(v.value) else Ok(CountByStatus(working.tasks));
    }

    method SelectTagNames(taskId: nat) returns (r: Result<set<string>, Integrity>)
      modifies this
      ensures Queried() && r == Answer(old(Effective()), NamesFor(old(Effective()), taskId))
    {
      var v := Flush();
      r := if v.Some? then Err(v.value) else Ok(NamesFor(working, taskId));
    }

    method SelectTagIds(keys: set<string>) returns (r: Result<map<string, nat>, Integrity>)
      modifies this
      ensures Queried()
      ensures Violation(old(Effective())).None? ==> r == Ok(FoundIds(old(Effective()).tags, keys))
      ensures Violation(old(Effective())).Some? ==> r == Err(Violation(old(Effective())).value)
    {
      var v := Flush();
      r := if v.Some? then Err(v.value) else Ok(FoundIds(working.tags, keys));
    }

    method SelectTaskCount(tagId: nat) returns (r: Result<nat, Integrity>)
      modifies this
      ensures Queried() && r == Answer(old(Effective()), TaskCount(old(Effective()), tagId))
    {
      var v := Flush();
      r := if v.Some? then Err(v.value) else Ok(TaskCount(working, tagId));
    }

    /** A bulk DELETE of a task's links; like a query it flushes first, and it writes at once. */
    method DeleteLinks(taskId: nat) returns (violation: Option<Integrity>)
      modifies this
      ensures committed == old(committed) && Clean() && violation == Violation(old(Effective()))
      ensures Effective() == if violation.None? then old(Effective()).(links := Relinked(old(Effective()).links, taskId, {})) else committed
    {
      violation := Flush();
      if violation.None? { Settle(working.(links := Relinked(working.links, taskId, {}))); }
    }
  }
}
