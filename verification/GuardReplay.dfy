/** The committed events are the whole truth about the committed rows, under any interleaving.
    Replayed column by column, as the writes were made, they give every row's title, description,
    status and priority, although two edits of one row may each announce values the other changed. */
module GuardReplay {
  import opened Wrappers
  import opened Definitions
  import opened Documents
  import opened Engine
  import opened Tasks
  import opened GuardProtocol
  import opened GuardSafety
  import Seed

  /** What the events speak of; the title key is not among the announced fields. */
  datatype Columns = Columns(title: string, description: Option<string>, status: string, priority: int)

  type View = map<nat, Columns>

  function ColumnsOf(task: Task): Columns {
    Columns(task.title, task.description, task.status, task.priority)
  }

  function ViewOf(tasks: map<nat, Task>): View {
    map id | id in tasks :: ColumnsOf(tasks[id])
  }

  /** Only the changed columns are taken from the announced task. */
  function Overlay(before: Columns, task: Task, changed: seq<Field>): Columns {
    Columns(if Title in changed then task.title else before.title,
            if Description in changed then task.description else before.description,
            if Status in changed then task.status else before.status,
            if Priority in changed then task.priority else before.priority)
  }

  function Take(view: View, event: Event): View {
    match event
    case TaskCreated(task) => view[task.id := ColumnsOf(task)]
    case TaskUpdated(task, _, changed) =>
      if task.id in view then view[task.id := Overlay(view[task.id], task, changed)] else view
    case TaskDeleted(task) => view - {task.id}
    case _ => view
  }

  function TakeAll(view: View, events: seq<Event>): View
    decreases |events|
  {
    if events == [] then view else TakeAll(Take(view, events[0]), events[1..])
  }

  function EventsIn(log: seq<Entry>): seq<Event> {
    seq(|log|, i requires 0 <= i < |log| => log[i].event)
  }

  lemma {:induction false} TakeBoth(view: View, first: seq<Event>, second: seq<Event>)
    ensures TakeAll(view, first + second) == TakeAll(TakeAll(view, first), second)
    decreases |first|
  {
    hide Take;
    if first == [] {
      assert first + second == second;
    } else {
      assert (first + second)[1..] == first[1..] + second;
      TakeBoth(Take(view, first[0]), first[1..], second);
    }
  }

  predicate Silent(event: Event) {
    !event.TaskCreated? && !event.TaskUpdated? && !event.TaskDeleted?
  }

  lemma {:induction false} TakeSilent(view: View, events: seq<Event>)
    requires forall i :: 0 <= i < |events| ==> Silent(events[i])
    ensures TakeAll(view, events) == view
    decreases |events|
  {
    if events != [] { TakeSilent(view, events[1..]); }
  }

  // ----- What a transaction is about to announce -----

  /** The events are those of the write and of nothing else. */
  predicate Exact(write: Write, events: seq<Event>) {
    match write
    case Insert(task) => events == [TaskCreated(task)]
    case Update(read, updated) =>
      && events != [] && events[0] == TaskUpdated(updated, read, ChangedFields(updated, read))
      && updated.id == read.id
      && forall i :: 1 <= i < |events| ==> Silent(events[i])
    case Remove(id) => |events| == 1 && events[0].TaskDeleted? && events[0].task.id == id
    case Install(_, _) => forall i :: 0 <= i < |events| ==> Silent(events[i])
  }

  predicate TxsExact(txs: map<TxId, Tx>) {
    forall t :: t in txs && txs[t].Ready? ==> Exact(txs[t].write, txs[t].events)
  }

  predicate Replayed(s: Db) {
    TakeAll(map[], EventsIn(s.log)) == ViewOf(s.tasks) && TxsExact(s.txs)
  }

  lemma UpdateIsExact(updated: Task, read: Task, engine: Option<Definition>)
    requires updated.status != read.status ==> engine.Some? && KnownName(engine.value, updated.status)
    requires UpdateEvents(updated, read, engine) != [] && updated.id == read.id
    ensures Exact(Update(read, updated), UpdateEvents(updated, read, engine))
  {
    hide Completes;
  }

  lemma DecideExact(fold: Fold, s: Db, t: TxId, id: nat, next: Db)
    requires Inv(s) && TxsExact(s.txs) && t in s.txs && Do(fold, s, Decide(t, id)) == Some(next)
    ensures next.tasks == s.tasks && next.log == s.log && TxsExact(next.txs)
  {
    hide Inv, DecideCreate, DecideEdit, UpdateEvents, Exact, ValidDefinition;
    hide WellFormed, DocumentRules, Print, Denotation;
    TxAt(s, t);
    match s.txs[t]
    case WithEngine(op, engine) => CreateExact(DecideCreate(fold, s, op, engine, id).value);
    case WithTask(op, checked, read) =>
      if op.Delete? {
        RemoveExact(op.id, read);
      } else {
        UpdateIsExact(DecideEdit(fold, s, op, checked, read).value, read, checked);
      }
  }

  lemma CreateExact(task: Task)
    ensures Exact(Insert(task), [TaskCreated(task)])
  {
  }

  lemma RemoveExact(id: nat, read: Task)
    requires read.id == id
    ensures Exact(Remove(id), [TaskDeleted(read)])
  {
  }

  lemma InstallExact(version: int, d: Definition, announce: bool)
    ensures Exact(Install(version, d), if announce then [WorkflowUpdated(version, Names(d.states))] else [])
  {
  }

  lemma OthersExact(fold: Fold, s: Db, step: Step, next: Db)
    requires TxsExact(s.txs) && Do(fold, s, step) == Some(next) && !step.Decide? && !step.Commit?
    ensures next.tasks == s.tasks && next.log == s.log && TxsExact(next.txs)
  {
    hide WellFormed, DocumentRules, Print, Denotation, Highest, StatusesKnown, Seed.DefaultDefinition, Exact;
    if step.PickVersion? {
      var tx := s.txs[step.t];
      InstallExact(Highest(s.documents.Keys) + 1, tx.definition, tx.announce);
    }
  }

  // ----- A commit -----

  /** The row a commit leaves is the stored one with the changed columns laid over it. */
  lemma MergeIsOverlay(current: Task, read: Task, updated: Task)
    ensures ColumnsOf(Merge(current, read, updated)) == Overlay(ColumnsOf(current), updated, ChangedFields(updated, read))
  {
  }

  lemma WriteReplays(s: Db, write: Write, events: seq<Event>)
    requires Exact(write, events) && Apply(s, write).Some?
    ensures TakeAll(ViewOf(s.tasks), events) == ViewOf(Apply(s, write).value.tasks)
  {
    hide Merge, KeyFree, ChangedFields, Overlay, Print;
    var view, after := ViewOf(s.tasks), Apply(s, write).value.tasks;
    match write
    case Insert(task) =>
      assert events[1..] == [];
      assert Take(view, events[0]) == ViewOf(after);
    case Update(read, updated) =>
      MergeIsOverlay(s.tasks[read.id], read, updated);
      assert Take(view, events[0]) == ViewOf(after);
      TakeSilent(ViewOf(after), events[1..]);
    case Remove(id) =>
      assert events[1..] == [];
      assert Take(view, events[0]) == ViewOf(after);
    case Install(_, _) => TakeSilent(view, events);
  }

  lemma CommitReplays(fold: Fold, s: Db, t: TxId, next: Db)
    requires Replayed(s) && t in s.txs && Do(fold, s, Commit(t)) == Some(next)
    ensures Replayed(next)
  {
    hide Apply, Highest, Exact, TakeAll;
    var tx := s.txs[t];
    ApplyTouchesTables(s, tx.write);
    WriteReplays(s, tx.write, tx.events);
    assert EventsIn(next.log) == EventsIn(s.log) + tx.events;
    TakeBoth(map[], EventsIn(s.log), tx.events);
  }

  // ----- Every run -----

  lemma StepReplays(fold: Fold, s: Db, step: Step, next: Db)
    requires Inv(s) && Replayed(s) && Do(fold, s, step) == Some(next)
    ensures Replayed(next)
  {
    hide Do, Inv, TakeAll, ViewOf, EventsIn, TxsExact;
    match step
    case Decide(t, id) =>
      NeedsTx(fold, s, step, next);
      DecideExact(fold, s, t, id, next);
    case Commit(t) =>
      NeedsTx(fold, s, step, next);
      CommitReplays(fold, s, t, next);
    case _ => OthersExact(fold, s, step, next);
  }

  lemma {:induction false} RunReplays(fold: Fold, s: Db, steps: seq<Step>)
    requires Inv(s) && Replayed(s) && Run(fold, s, steps).Some?
    ensures Replayed(Run(fold, s, steps).value)
    decreases |steps|
  {
    hide Do, Inv, Replayed;
    if steps != [] {
      var next := Do(fold, s, steps[0]).value;
      StepKeeps(fold, s, steps[0], next);
      StepReplays(fold, s, steps[0], next);
      RunReplays(fold, next, steps[1..]);
    }
  }

  /** In every reachable state of every interleaving, folding the committed events in commit order,
      each update writing only the fields it lists, gives exactly the committed rows' columns. */
  lemma LogGivesTheRows(fold: Fold, s: Db)
    requires Reached(fold, s)
    ensures TakeAll(map[], EventsIn(s.log)) == ViewOf(s.tasks)
  {
    hide Do, Inv, TakeAll, ViewOf;
    InitReplays();
    var steps :| Run(fold, Init, steps) == Some(s);
    RunReplays(fold, Init, steps);
  }

  lemma InitReplays()
    ensures Inv(Init) && Replayed(Init)
  {
    hide KnownName;
  }
}
