/** The two views of one write agree. A transaction of the concurrent protocol that meets no other
    commits exactly when the serial use-case succeeds, with the same rows and the same events. */
module SerialAgreement {
  import opened Wrappers
  import opened Json
  import opened Definitions
  import opened Documents
  import opened Engine
  import opened Tasks
  import opened Store
  import opened StoreLaws
  import opened UseCases
  import opened GuardProtocol
  import opened GuardSafety
  import opened WorkflowStores
  import opened KeyDrift
  import Seed

  /** The protocol state with one more transaction, at this point. */
  function With(s: Db, x: TxId, tx: Tx, shares: bool): Db {
    s.(txs := s.txs[x := tx], shared := if shares then s.shared + {x} else s.shared)
  }

  ghost predicate Current(s: Db, d: Definition) {
    var version := Highest(s.documents.Keys);
    version in s.documents && WellFormed(s.documents[version]) && Denotation(s.documents[version]) == d
  }

  /** Nothing keeps `x` from starting, and no one holds or awaits the guard exclusively. */
  predicate Quiet(s: Db, x: TxId) {
    x !in s.txs && x !in s.shared && s.exclusive.None?
  }

  function EventsOf(entries: seq<Entry>): seq<Event> {
    seq(|entries|, i requires 0 <= i < |entries| => entries[i].event)
  }

  lemma EventsOfEntries(events: seq<Event>, roles: set<string>, version: int)
    ensures EventsOf(Entries(events, roles, version)) == events
  {
  }

  lemma RunTwo(fold: Fold, s: Db, a: Step, b: Step)
    ensures Run(fold, s, [a, b]) ==
      match Do(fold, s, a)
      case None => None
      case Some(middle) => Do(fold, middle, b)
  {
    hide Do;
    assert [a, b][1..] == [b] && [b][1..] == [];
    if Do(fold, s, a).Some? {
      var middle := Do(fold, s, a).value;
      assert Run(fold, s, [a, b]) == Run(fold, middle, [b]);
      if Do(fold, middle, b).Some? { assert Run(fold, middle, [b]) == Run(fold, Do(fold, middle, b).value, []); }
    }
  }

  /** Taking the guard and reading the definition under it. */
  lemma GuardedStart(fold: Fold, s: Db, x: TxId, op: Op, d: Definition)
    requires TakesShared(op) && Quiet(s, x) && Current(s, d)
    ensures Run(fold, s, [Begin(x, op), Acquire(x), ReadDefinition(x)]) == Some(With(s, x, WithEngine(op, d), true))
  {
    hide WellFormed, Denotation;
    var s1, s2, s3 := With(s, x, Started(op), false), With(s, x, Guarded(op), true), With(s, x, WithEngine(op, d), true);
    assert s1.txs[x := Guarded(op)] == s2.txs && s2.txs[x := WithEngine(op, d)] == s3.txs;
    RunThree(fold, s, Begin(x, op), Acquire(x), ReadDefinition(x), s1, s2, s3);
  }

  /** Committing undisturbed: the write and its events, or nothing when the key is taken. */
  lemma CommitAlone(fold: Fold, s: Db, x: TxId, write: Write, events: seq<Event>, roles: set<string>, shares: bool)
    requires Quiet(s, x)
    ensures
      var end := Do(fold, With(s, x, Ready(write, events, roles), shares), Commit(x));
      match Apply(s, write)
      case None => end.None?
      case Some(applied) =>
        end.Some? && end.value.tasks == applied.tasks && EventsOf(end.value.log) == EventsOf(s.log) + events
  {
    hide Print, Merge, KeyFree, EventsOf, Entries, Highest;
    EventsOfEntries(events, roles, Highest(s.documents.Keys));
    EventsOfBoth(s.log, Entries(events, roles, Highest(s.documents.Keys)));
  }

  lemma EventsOfBoth(a: seq<Entry>, b: seq<Entry>)
    ensures EventsOf(a + b) == EventsOf(a) + EventsOf(b)
  {
  }

  /** The events about task rows; the protocol carries no tags. */
  function TaskEvents(events: seq<Event>): seq<Event> {
    if events == [] then []
    else
      var last := events[|events| - 1];
      TaskEvents(events[..|events| - 1]) + if last.TaskTagsChanged? then [] else [last]
  }

  lemma {:induction false} TaskEventsKept(events: seq<Event>)
    requires forall i :: 0 <= i < |events| ==> !events[i].TaskTagsChanged?
    ensures TaskEvents(events) == events
  {
    if events != [] { TaskEventsKept(events[..|events| - 1]); }
  }

  /** At most one event, about tags: what staging tags returns. */
  predicate OnlyTags(events: seq<Event>) {
    |events| <= 1 && (events != [] ==> events[0].TaskTagsChanged?)
  }

  lemma TagEventsDropped(events: seq<Event>, tagEvents: seq<Event>)
    requires OnlyTags(tagEvents) && forall i :: 0 <= i < |events| ==> !events[i].TaskTagsChanged?
    ensures TaskEvents(events + tagEvents) == events
  {
    TaskEventsKept(events);
    var all := events + tagEvents;
    if tagEvents == [] { assert all == events; } else { assert all[..|all| - 1] == events; }
  }

  lemma StagingStagesOnlyTags(fold: Fold, t: Tables, id: nat, names: Option<seq<string>>)
    requires TagKeysDistinct(t.tags) && StagedTags(fold, t, id, names).Some?
    ensures
      var (staged, events) := StagedTags(fold, t, id, names).value;
      OnlyTags(events) && staged.tasks == t.tasks && staged.outbox == t.outbox
  {
  }

  /** What a use-case and an undisturbed protocol run owe each other. A success is a run that
      commits the same rows and task events, or no run when there are none; a refusal is no run.
      Only the refusal of a blank tag name lies outside the protocol. */
  predicate Agree<T>(t: Tables, outcome: Outcome<T>, s: Db, end: Option<Db>) {
    && (outcome.result.Ok? ==>
          && |t.outbox| <= |outcome.tables.outbox|
          && AgreeOn(s, end, outcome.tables.tasks, TaskEvents(outcome.tables.outbox[|t.outbox|..])))
    && (outcome.result.Err? && outcome.result.error != BlankTagName ==> end.None?)
  }

  predicate AgreeOn(s: Db, end: Option<Db>, tasks: map<nat, Task>, events: seq<Event>) {
    if events == [] then end.None? && tasks == s.tasks
    else end.Some? && end.value.tasks == tasks && EventsOf(end.value.log) == EventsOf(s.log) + events
  }

  /** A committed write agrees with the use-case that publishes it along with its tag event. */
  lemma Published(t: Tables, outcome: Tables, s: Db, end: Option<Db>, events: seq<Event>, tagEvents: seq<Event>)
    requires outcome.outbox == t.outbox + (events + tagEvents) && OnlyTags(tagEvents)
    requires forall i :: 0 <= i < |events| ==> !events[i].TaskTagsChanged?
    requires AgreeOn(s, end, outcome.tasks, events)
    ensures |t.outbox| <= |outcome.outbox|
    ensures AgreeOn(s, end, outcome.tasks, TaskEvents(outcome.outbox[|t.outbox|..]))
  {
    hide AgreeOn, OnlyTags;
    TagEventsDropped(events, tagEvents);
    assert outcome.outbox[|t.outbox|..] == events + tagEvents;
  }

  lemma CreateAlone(fold: Fold, s: Db, x: TxId, d: Definition, t: Tables, input: Input)
    requires Quiet(s, x) && Current(s, d) && ValidDefinition(d)
    requires t.tasks == s.tasks && t.next !in s.minted && t.next !in s.tasks && TagKeysDistinct(t.tags)
    ensures
      var op := Create(input.title, input.description, input.status, input.priority);
      Agree(t, CreateOutcome(fold, t, Some(d), input), s,
            Run(fold, s, [Begin(x, op), Acquire(x), ReadDefinition(x)] + [Decide(x, t.next), Commit(x)]))
  {
    hide Do, Run, Current, KeyFree, Occupancy, ResolveEntry, EventsOf, StagedTags, TaskEvents;
    var op := Create(input.title, input.description, input.status, input.priority);
    var h := With(s, x, WithEngine(op, d), true);
    var steps := [Begin(x, op), Acquire(x), ReadDefinition(x)] + [Decide(x, t.next), Commit(x)];
    GuardedStart(fold, s, x, op, d);
    RunConcat(fold, s, [Begin(x, op), Acquire(x), ReadDefinition(x)], h, [Decide(x, t.next), Commit(x)]);
    RunTwo(fold, h, Decide(x, t.next), Commit(x));
    DecideCreateAlone(fold, s, x, d, op, t.next);
    var decided := DecideCreate(fold, s, op, d, t.next);
    if decided.Some? {
      var task := decided.value;
      CommitAlone(fold, s.(minted := s.minted + {t.next}), x, Write.Insert(task), [TaskCreated(task)], {}, true);
      var staged := StagedTags(fold, UseCases.Insert(t, task), task.id, TagsToStage(input.tags));
      if staged.Some? && KeyFree(t.tasks, task.id, task.titleKey) {
        StagingStagesOnlyTags(fold, UseCases.Insert(t, task), task.id, TagsToStage(input.tags));
        Published(t, CreateOutcome(fold, t, Some(d), input).tables, s, Run(fold, s, steps), [TaskCreated(task)], staged.value.1);
      }
    }
  }

  lemma DecideCreateAlone(fold: Fold, s: Db, x: TxId, d: Definition, op: Op, id: nat)
    requires Quiet(s, x) && ValidDefinition(d) && op.Create? && id !in s.minted
    ensures Do(fold, With(s, x, WithEngine(op, d), true), Decide(x, id)) ==
      match DecideCreate(fold, s, op, d, id)
      case None => None
      case Some(task) =>
        Some(With(s.(minted := s.minted + {id}), x, Ready(Write.Insert(task), [TaskCreated(task)], {}), true))
  {
    hide Occupancy, ResolveEntry, FromInput;
    var h := With(s, x, WithEngine(op, d), true);
    assert DecideCreate(fold, h, op, d, id) == DecideCreate(fold, s, op, d, id);
    match DecideCreate(fold, s, op, d, id)
    case None =>
    case Some(task) =>
      var tx := Ready(Write.Insert(task), [TaskCreated(task)], {});
      assert h.txs[x := tx] == s.txs[x := tx];
  }

  /** A decision depends on the task table and on nothing else of the state. */
  lemma DecidesOnTasks(fold: Fold, g: Db, s: Db, op: Op, checked: Option<Definition>, read: Task)
    requires (op.Replace? || op.PatchTask?) && checked.Some? == TakesShared(op) && Usable(checked) && g.tasks == s.tasks
    ensures DecideEdit(fold, g, op, checked, read) == DecideEdit(fold, s, op, checked, read)
  {
  }

  lemma ReadUndisturbed(fold: Fold, s: Db, x: TxId, op: Op, checked: Option<Definition>)
    requires Quiet(s, x) && (op.Replace? || op.PatchTask?) && checked.Some? == TakesShared(op)
    ensures
      var start := if checked.Some? then WithEngine(op, checked.value) else Started(op);
      Do(fold, With(s, x, start, checked.Some?), ReadTask(x)) ==
        if op.id !in s.tasks then None else Some(With(s, x, WithTask(op, checked, s.tasks[op.id]), checked.Some?))
  {
    var start := if checked.Some? then WithEngine(op, checked.value) else Started(op);
    if op.id in s.tasks {
      var tx := WithTask(op, checked, s.tasks[op.id]);
      assert s.txs[x := start][x := tx] == s.txs[x := tx];
    }
  }

  lemma DecideUndisturbed(fold: Fold, s: Db, x: TxId, op: Op, checked: Option<Definition>, read: Task)
    requires Quiet(s, x) && (op.Replace? || op.PatchTask?) && checked.Some? == TakesShared(op) && Usable(checked)
    ensures Do(fold, With(s, x, WithTask(op, checked, read), checked.Some?), Decide(x, 0)) ==
      match DecideEdit(fold, s, op, checked, read)
      case None => None
      case Some(updated) =>
        var events := UpdateEvents(updated, read, checked);
        if events == [] then None else Some(With(s, x, Ready(Write.Update(read, updated), events, op.roles), checked.Some?))
  {
    hide DecideEdit, UpdateEvents, ValidDefinition;
    var g := With(s, x, WithTask(op, checked, read), checked.Some?);
    DecidesOnTasks(fold, g, s, op, checked, read);
    if DecideEdit(fold, s, op, checked, read).Some? {
      var updated := DecideEdit(fold, s, op, checked, read).value;
      var tx := Ready(Write.Update(read, updated), UpdateEvents(updated, read, checked), op.roles);
      assert g.txs[x := tx] == s.txs[x := tx];
    }
  }

  /** Reading the row and deciding, undisturbed, as far as the commit. */
  lemma EditTail(fold: Fold, s: Db, x: TxId, op: Op, checked: Option<Definition>)
    requires Quiet(s, x) && (op.Replace? || op.PatchTask?) && checked.Some? == TakesShared(op) && Usable(checked)
    ensures
      var start := if checked.Some? then WithEngine(op, checked.value) else Started(op);
      Run(fold, With(s, x, start, checked.Some?), [ReadTask(x), Decide(x, 0)]) ==
        if op.id !in s.tasks then None
        else
          match DecideEdit(fold, s, op, checked, s.tasks[op.id])
          case None => None
          case Some(updated) =>
            var events := UpdateEvents(updated, s.tasks[op.id], checked);
            if events == [] then None
            else Some(With(s, x, Ready(Write.Update(s.tasks[op.id], updated), events, op.roles), checked.Some?))
  {
    hide Do, Run, DecideEdit, UpdateEvents, With;
    var start := if checked.Some? then WithEngine(op, checked.value) else Started(op);
    RunTwo(fold, With(s, x, start, checked.Some?), ReadTask(x), Decide(x, 0));
    ReadUndisturbed(fold, s, x, op, checked);
    if op.id in s.tasks { DecideUndisturbed(fold, s, x, op, checked, s.tasks[op.id]); }
  }

  /** The whole run of an edit: start, read, decide, commit. */
  ghost function EditRun(fold: Fold, s: Db, x: TxId, op: Op): Option<Db> {
    if TakesShared(op) then Run(fold, s, [Begin(x, op), Acquire(x), ReadDefinition(x)] + [ReadTask(x), Decide(x, 0)] + [Commit(x)])
    else Run(fold, s, [Begin(x, op)] + [ReadTask(x), Decide(x, 0)] + [Commit(x)])
  }

  lemma {:induction false} RunStuck(fold: Fold, s: Db, first: seq<Step>, second: seq<Step>)
    requires Run(fold, s, first).None?
    ensures Run(fold, s, first + second).None?
    decreases |first|
  {
    hide Do;
    assert (first + second)[1..] == first[1..] + second;
    if Do(fold, s, first[0]).Some? { RunStuck(fold, Do(fold, s, first[0]).value, first[1..], second); }
  }

  lemma RunLast(fold: Fold, s: Db, first: seq<Step>, last: Step)
    ensures Run(fold, s, first + [last]) ==
      match Run(fold, s, first)
      case None => None
      case Some(middle) => Do(fold, middle, last)
  {
    hide Do;
    if Run(fold, s, first).None? {
      RunStuck(fold, s, first, [last]);
    } else {
      var middle := Run(fold, s, first).value;
      RunConcat(fold, s, first, middle, [last]);
      assert [last][1..] == [];
      if Do(fold, middle, last).Some? { assert Run(fold, Do(fold, middle, last).value, []) == Do(fold, middle, last); }
    }
  }

  /** An undisturbed edit: nothing, or the merged row and its events. */
  lemma EditRunIs(fold: Fold, s: Db, x: TxId, op: Op, d: Definition)
    requires Quiet(s, x) && (op.Replace? || op.PatchTask?) && Current(s, d) && ValidDefinition(d)
    requires op.id in s.tasks ==> s.tasks[op.id].id == op.id
    ensures
      var end, checked := EditRun(fold, s, x, op), if TakesShared(op) then Some(d) else None;
      if op.id !in s.tasks then end.None?
      else
        match DecideEdit(fold, s, op, checked, s.tasks[op.id])
        case None => end.None?
        case Some(updated) =>
          var events := UpdateEvents(updated, s.tasks[op.id], checked);
          if events == [] || !KeyFree(s.tasks, op.id, updated.titleKey) then end.None?
          else end.Some? && end.value.tasks == s.tasks[op.id := updated] && EventsOf(end.value.log) == EventsOf(s.log) + events
  {
    hide Do, Run, Current, DecideEdit, UpdateEvents, KeyFree, EventsOf;
    var checked := if TakesShared(op) then Some(d) else None;
    var start := if TakesShared(op) then WithEngine(op, d) else Started(op);
    var h := With(s, x, start, TakesShared(op));
    var first := if TakesShared(op) then [Begin(x, op), Acquire(x), ReadDefinition(x)] else [Begin(x, op)];
    if TakesShared(op) { GuardedStart(fold, s, x, op, d); } else { Starts(fold, s, x, op); }
    RunConcat(fold, s, first, h, [ReadTask(x), Decide(x, 0)]);
    RunLast(fold, s, first + [ReadTask(x), Decide(x, 0)], Commit(x));
    EditTail(fold, s, x, op, checked);
    if op.id in s.tasks && DecideEdit(fold, s, op, checked, s.tasks[op.id]).Some? {
      var read, updated := s.tasks[op.id], DecideEdit(fold, s, op, checked, s.tasks[op.id]).value;
      CommitAlone(fold, s, x, Write.Update(read, updated), UpdateEvents(updated, read, checked), op.roles, TakesShared(op));
      MergeAlone(read, updated);
    }
  }

  lemma Starts(fold: Fold, s: Db, x: TxId, op: Op)
    requires Quiet(s, x)
    ensures Run(fold, s, [Begin(x, op)]) == Some(With(s, x, Started(op), false))
  {
    assert [Begin(x, op)][1..] == [];
  }

  lemma UpdateEventsAreTasks(updated: Task, previous: Task, engine: Option<Definition>)
    requires updated.status != previous.status ==> engine.Some? && KnownName(engine.value, updated.status)
    ensures
      var events := UpdateEvents(updated, previous, engine);
      forall i :: 0 <= i < |events| ==> !events[i].TaskTagsChanged?
  {
  }

  lemma UpdateAgrees(fold: Fold, t: Tables, s: Db, names: Option<seq<string>>, updated: Task, engine: Option<Definition>, rawTitle: string, end: Option<Db>)
    requires t.tasks == s.tasks && updated.id in t.tasks && t.tasks[updated.id].id == updated.id
    requires KeyLaw(fold, t.tasks[updated.id]) && KeyLaw(fold, updated)
    requires updated.status != t.tasks[updated.id].status ==> engine.Some? && KnownName(engine.value, updated.status)
    requires TagKeysDistinct(t.tags) && StagedTags(fold, t, updated.id, names).Some?
    requires
      var events := UpdateEvents(updated, t.tasks[updated.id], engine);
      if events == [] || !KeyFree(t.tasks, updated.id, updated.titleKey) then end.None?
      else end.Some? && end.value.tasks == t.tasks[updated.id := updated] && EventsOf(end.value.log) == EventsOf(s.log) + events
    ensures
      var (staged, tagEvents) := StagedTags(fold, t, updated.id, names).value;
      Agree(t, UpdateOutcome(t, staged, updated, t.tasks[updated.id], engine, rawTitle, tagEvents), s, end)
  {
    hide KeyFree, EventsOf, UpdateEvents, StagedTags, KeyLaw, OnlyTags, TaskEvents;
    var previous := t.tasks[updated.id];
    var (staged, tagEvents) := StagedTags(fold, t, updated.id, names).value;
    var outcome := UpdateOutcome(t, staged, updated, previous, engine, rawTitle, tagEvents);
    StagingStagesOnlyTags(fold, t, updated.id, names);
    UpdateEventsAreTasks(updated, previous, engine);
    UnchangedRow(fold, updated, previous, engine);
    var events := UpdateEvents(updated, previous, engine);
    assert events == [] ==> t.tasks[updated.id := updated] == t.tasks;
    if outcome.result.Ok? {
      assert outcome.tables.outbox == t.outbox + (events + tagEvents);
      Published(t, outcome.tables, s, end, events, tagEvents);
    }
  }

  lemma EmptyPatch(fold: Fold, read: Task)
    ensures ApplyPatch(fold, read, NoFields.patch) == Some(read) && UpdateEvents(read, read, None) == []
  {
  }

  /** A patch that meets no other transaction, with or without tags. */
  lemma PatchAlone(fold: Fold, s: Db, x: TxId, d: Definition, t: Tables, id: nat, fields: Fields, roles: set<string>)
    requires Quiet(s, x) && Current(s, d) && ValidDefinition(d)
    requires t.tasks == s.tasks && StoreOk(fold, t)
    ensures Agree(t, PatchOutcome(fold, t, Some(d), id, fields, roles), s, EditRun(fold, s, x, PatchTask(id, fields.patch, roles)))
  {
    hide Current, KeyFree, EventsOf, EditRun, CheckMove, Occupancy, StagedTags, UpdateEvents, UpdateOutcome, ApplyPatch;
    hide LinksHold, TagKeysDistinct, TitleKeysDistinct, KeyLaw, TagOk, TaskEvents;
    var op := PatchTask(id, fields.patch, roles);
    if id in t.tasks { LawfulRow(fold, t, id); }
    EditRunIs(fold, s, x, op, d);
    if id in t.tasks {
      var read, names := t.tasks[id], Or(fields.tags, None);
      EmptyPatch(fold, read);
      var decided := DecideEdit(fold, s, op, PatchEngine(Some(d), fields), read);
      if decided.Some? && StagedTags(fold, t, id, names).Some? {
        UpdateAgrees(fold, t, s, names, decided.value, PatchEngine(Some(d), fields), Or(fields.patch.title, decided.value.title), EditRun(fold, s, x, op));
      }
    }
  }

  /** A replacement that meets no other transaction, whatever tags it gives or clears. */
  lemma ReplaceAlone(fold: Fold, s: Db, x: TxId, d: Definition, t: Tables, id: nat, input: Input, roles: set<string>)
    requires Quiet(s, x) && Current(s, d) && ValidDefinition(d)
    requires t.tasks == s.tasks && StoreOk(fold, t)
    ensures
      var op := Op.Replace(id, input.title, input.description, input.status, input.priority, roles);
      Agree(t, ReplaceOutcome(fold, t, Some(d), id, input, roles), s, EditRun(fold, s, x, op))
  {
    hide Current, KeyFree, EventsOf, EditRun, CheckMove, Occupancy, StagedTags, UpdateEvents, UpdateOutcome, ApplyReplace;
    hide LinksHold, TagKeysDistinct, TitleKeysDistinct, KeyLaw, TagOk, TaskEvents;
    var op := Op.Replace(id, input.title, input.description, input.status, input.priority, roles);
    if id in t.tasks { LawfulRow(fold, t, id); }
    EditRunIs(fold, s, x, op, d);
    if id in t.tasks {
      var read, names := t.tasks[id], Some(Or(input.tags, []));
      var decided := DecideEdit(fold, s, op, Some(d), read);
      if decided.Some? && StagedTags(fold, t, id, names).Some? {
        UpdateAgrees(fold, t, s, names, decided.value, Some(d), input.title, EditRun(fold, s, x, op));
      }
    }
  }

  /** A deletion that meets no other transaction. */
  lemma DeleteAlone(fold: Fold, s: Db, x: TxId, t: Tables, id: nat)
    requires Quiet(s, x) && t.tasks == s.tasks
    ensures Agree(t, DeleteOutcome(t, id), s, Run(fold, s, [Begin(x, Op.Delete(id))] + [ReadTask(x), Decide(x, 0)] + [Commit(x)]))
  {
    hide Do, Run, EventsOf, TaskEvents;
    var op := Op.Delete(id);
    var h := With(s, x, Started(op), false);
    Starts(fold, s, x, op);
    RunConcat(fold, s, [Begin(x, op)], h, [ReadTask(x), Decide(x, 0)]);
    RunLast(fold, s, [Begin(x, op)] + [ReadTask(x), Decide(x, 0)], Commit(x));
    DeleteTail(fold, s, x, id);
    if id in s.tasks {
      var events := [TaskDeleted(s.tasks[id])];
      var end := Run(fold, s, [Begin(x, op)] + [ReadTask(x), Decide(x, 0)] + [Commit(x)]);
      CommitAlone(fold, s, x, Write.Remove(id), events, {}, false);
      assert events + [] == events;
      Published(t, DeleteOutcome(t, id).tables, s, end, events, []);
    }
  }

  lemma DeleteTail(fold: Fold, s: Db, x: TxId, id: nat)
    requires Quiet(s, x)
    ensures Run(fold, With(s, x, Started(Op.Delete(id)), false), [ReadTask(x), Decide(x, 0)]) ==
      if id !in s.tasks then None
      else Some(With(s, x, Ready(Write.Remove(id), [TaskDeleted(s.tasks[id])], {}), false))
  {
    var op := Op.Delete(id);
    var h := With(s, x, Started(op), false);
    RunTwo(fold, h, ReadTask(x), Decide(x, 0));
    if id in s.tasks {
      var read := s.tasks[id];
      var g := With(s, x, WithTask(op, None, read), false);
      assert h.txs[x := WithTask(op, None, read)] == g.txs;
      var ready := Ready(Write.Remove(id), [TaskDeleted(read)], {});
      assert g.txs[x := ready] == s.txs[x := ready];
    }
  }

  // ----- Definitions -----

  function Alone(s: Db, x: TxId, tx: Tx): Db {
    s.(txs := s.txs[x := tx], exclusive := Some(x))
  }

  /** The state with one definition more. */
  ghost function Installed(s: Db, d: Definition, announce: bool): Db {
    var version := Highest(s.documents.Keys) + 1;
    var events := if announce then [WorkflowUpdated(version, Names(d.states))] else [];
    s.(documents := s.documents[version := Print(d)], installed := s.installed[version := d],
       log := s.log + Entries(events, {}, Highest(s.documents.Keys)))
  }

  function InstallSteps(x: TxId, op: Op): seq<Step> {
    [Begin(x, op), Acquire(x)] + [CheckUsage(x), PickVersion(x)] + [Commit(x)]
  }

  lemma ExclusiveStart(fold: Fold, s: Db, x: TxId, op: Op)
    requires TakesExclusive(op) && Quiet(s, x) && s.shared == {}
    ensures Run(fold, s, [Begin(x, op), Acquire(x)]) ==
      if op.PutWorkflow? && !WellFormed(op.document) then None else Some(Alone(s, x, Guarded(op)))
  {
    hide WellFormed;
    var begun := With(s, x, Started(op), false);
    RunTwo(fold, s, Begin(x, op), Acquire(x));
    assert begun.txs[x := Guarded(op)] == s.txs[x := Guarded(op)];
  }

  /** The write an install is about to commit. */
  ghost function ReadyToInstall(s: Db, d: Definition, announce: bool): Tx {
    var version := Highest(s.documents.Keys) + 1;
    Ready(Write.Install(version, d), if announce then [WorkflowUpdated(version, Names(d.states))] else [], {})
  }

  lemma Picked(fold: Fold, s: Db, x: TxId, op: Op, d: Definition, announce: bool)
    requires Quiet(s, x) && DoCheckUsage(Alone(s, x, Guarded(op)), x, op) == Some(Alone(s, x, Cleared(d, announce)))
    ensures Run(fold, Alone(s, x, Guarded(op)), [CheckUsage(x), PickVersion(x)]) == Some(Alone(s, x, ReadyToInstall(s, d, announce)))
  {
    hide WellFormed, Denotation, Highest, StatusesKnown, Seed.DefaultDefinition, DoCheckUsage;
    var h, g := Alone(s, x, Guarded(op)), Alone(s, x, Cleared(d, announce));
    RunTwo(fold, h, CheckUsage(x), PickVersion(x));
    assert g.txs[x := ReadyToInstall(s, d, announce)] == s.txs[x := ReadyToInstall(s, d, announce)];
  }

  lemma CommitInstall(fold: Fold, s: Db, x: TxId, d: Definition, announce: bool)
    requires Quiet(s, x) && Highest(s.documents.Keys) + 1 !in s.documents
    ensures Do(fold, Alone(s, x, ReadyToInstall(s, d, announce)), Commit(x)) == Some(Installed(s, d, announce))
  {
    hide Print, Highest, Entries;
    var h := Alone(s, x, ReadyToInstall(s, d, announce));
    assert h.txs - {x} == s.txs && s.shared - {x} == s.shared;
  }

  /** An install that meets no other transaction, once its check passes. */
  lemma InstallAlone(fold: Fold, s: Db, x: TxId, op: Op, d: Definition, announce: bool)
    requires TakesExclusive(op) && Quiet(s, x) && s.shared == {} && (op.PutWorkflow? ==> WellFormed(op.document))
    requires DoCheckUsage(Alone(s, x, Guarded(op)), x, op) == Some(Alone(s, x, Cleared(d, announce)))
    requires Highest(s.documents.Keys) + 1 !in s.documents
    ensures Run(fold, s, InstallSteps(x, op)) == Some(Installed(s, d, announce))
  {
    hide Do, Run, DoCheckUsage, WellFormed, Installed, ReadyToInstall;
    ExclusiveStart(fold, s, x, op);
    Picked(fold, s, x, op, d, announce);
    RunConcat(fold, s, [Begin(x, op), Acquire(x)], Alone(s, x, Guarded(op)), [CheckUsage(x), PickVersion(x)]);
    RunLast(fold, s, [Begin(x, op), Acquire(x)] + [CheckUsage(x), PickVersion(x)], Commit(x));
    CommitInstall(fold, s, x, d, announce);
  }

  /** An install whose lock or check refuses goes no further. */
  lemma InstallRefused(fold: Fold, s: Db, x: TxId, op: Op)
    requires TakesExclusive(op) && Quiet(s, x) && s.shared == {}
    requires (op.PutWorkflow? && !WellFormed(op.document)) || DoCheckUsage(Alone(s, x, Guarded(op)), x, op).None?
    ensures Run(fold, s, InstallSteps(x, op)).None?
  {
    hide Do, Run, DoCheckUsage, WellFormed;
    var first, middle := [Begin(x, op), Acquire(x)], [CheckUsage(x), PickVersion(x)];
    ExclusiveStart(fold, s, x, op);
    if op.PutWorkflow? && !WellFormed(op.document) {
      RunStuck(fold, s, first, middle);
    } else {
      var h := Alone(s, x, Guarded(op));
      RunConcat(fold, s, first, h, middle);
      UsageRefused(fold, h, x, op);
    }
    RunStuck(fold, s, first + middle, [Commit(x)]);
  }

  lemma UsageRefused(fold: Fold, h: Db, x: TxId, op: Op)
    requires x in h.txs && h.txs[x] == Guarded(op) && DoCheckUsage(h, x, op).None?
    ensures Run(fold, h, [CheckUsage(x), PickVersion(x)]).None?
  {
    hide DoCheckUsage;
    RunTwo(fold, h, CheckUsage(x), PickVersion(x));
  }

  lemma NextIsFree(s: Db)
    requires Inv(s)
    ensures Highest(s.documents.Keys) == |s.documents| && |s.documents| + 1 !in s.documents
  {
    hide WellFormed, DocumentRules, Print, Denotation, NoneStranded, LogOk, TxsOk;
    HighestIsLast(s.documents, s.installed);
    assert |s.documents.Keys| == |s.installed.Keys|;
  }

  /** A replacement of the definition that meets no other transaction: it commits exactly when the
      document is well-formed and strands no task, as the next version, with its event. */
  lemma PutAlone(fold: Fold, s: Db, x: TxId, document: JSON)
    requires Inv(s) && Quiet(s, x) && s.shared == {}
    ensures
      var end := Run(fold, s, InstallSteps(x, PutWorkflow(document)));
      && (end.Some? <==> WellFormed(document) && Stranded(s.tasks, Denotation(document)) == map[])
      && (end.Some? ==> end.value == Installed(s, Denotation(document), true))
      && Highest(s.documents.Keys) == |s.documents|
  {
    hide Inv, Run, Structured, ContentOk, AllReachable, Denotation, Stranded, Installed, Highest, InstallSteps;
    var op := PutWorkflow(document);
    NextIsFree(s);
    if WellFormed(document) { StrandedExactly(s.tasks, Denotation(document)); }
    var h := Alone(s, x, Guarded(op));
    if WellFormed(document) && StatusesKnown(s.tasks, Denotation(document)) {
      assert h.txs[x := Cleared(Denotation(document), true)] == s.txs[x := Cleared(Denotation(document), true)];
      InstallAlone(fold, s, x, op, Denotation(document), true);
    } else {
      InstallRefused(fold, s, x, op);
    }
  }

  /** A seed that meets no other transaction stores the default exactly when nothing is stored. */
  lemma SeedAlone(fold: Fold, s: Db, x: TxId)
    requires Inv(s) && Quiet(s, x) && s.shared == {}
    ensures
      var end := Run(fold, s, InstallSteps(x, SeedWorkflow));
      && (end.Some? <==> s.documents == map[])
      && (end.Some? ==> end.value == Installed(s, Seed.DefaultDefinition(), false))
      && Highest(s.documents.Keys) == |s.documents|
  {
    hide Inv, Run, Installed, Highest, Seed.DefaultDefinition, InstallSteps;
    NextIsFree(s);
    var h, d := Alone(s, x, Guarded(SeedWorkflow)), Seed.DefaultDefinition();
    if s.documents == map[] {
      assert h.txs[x := Cleared(d, false)] == s.txs[x := Cleared(d, false)];
      InstallAlone(fold, s, x, SeedWorkflow, d, false);
    } else {
      InstallRefused(fold, s, x, SeedWorkflow);
    }
  }

  /** The first boot: from nothing at all, the seed commits version 1 and the default is active. */
  lemma FirstBoot(fold: Fold, x: TxId)
    ensures
      var end := Run(fold, Init, InstallSteps(x, SeedWorkflow));
      && end.Some? && Reached(fold, end.value) && Active(end.value) == Some(Seed.DefaultDefinition())
      && end.value.documents == map[1 := Print(Seed.DefaultDefinition())]
  {
    hide Run, Seed.DefaultDefinition, Print, InstallSteps, Inv, Installed;
    InitIsOk();
    SeedAlone(fold, Init, x);
    InstalledFirst(Seed.DefaultDefinition(), false);
  }

  lemma InitIsOk()
    ensures Inv(Init)
  {
    hide KnownName;
  }

  lemma InstalledFirst(d: Definition, announce: bool)
    ensures
      var end := Installed(Init, d, announce);
      && end.documents == map[1 := Print(d)] && end.installed == map[1 := d] && Highest(end.documents.Keys) == 1
      && Active(end) == Some(d)
      && end.tasks == map[] && end.txs == map[] && end.shared == {} && end.exclusive.None? && end.minted == {}
  {
    hide Print, Highest, Entries;
    HighestOfNone();
    assert Init.documents.Keys == {};
    var end := Installed(Init, d, announce);
    assert end.documents.Keys == {1};
    HighestOfOne();
  }

  lemma HighestOfNone()
    ensures Highest({}) == 0
  {
  }

  lemma HighestOfOne()
    ensures Highest({1}) == 1
  {
    assert IsMax(1, {1});
  }
}
