/** What a committed status event says of the row. The pair it names was checked, but against the
    row as the writer read it: when another status write committed in between, the row moves from
    somewhere else, along a pair no one checked. Which steps do so, and which runs never do. */
module StatusRuns {
  import opened Wrappers
  import opened Definitions
  import opened Documents
  import opened Engine
  import opened Tasks
  import opened GuardProtocol
  import opened GuardSafety
  import Seed

  predicate OfStatus(e: Event) {
    e.TaskStatusChanged? || e.TaskCompleted?
  }

  /** The status events of a write: one exactly when it moves the status, naming what it read. */
  predicate Tells(write: Write, events: seq<Event>) {
    match write
    case Update(read, updated) =>
      && read.id == updated.id
      && (updated.status != read.status ==> TaskStatusChanged(updated, read.status, updated.status) in events)
      && (forall e :: e in events && e.TaskStatusChanged? ==>
            e == TaskStatusChanged(updated, read.status, updated.status) && updated.status != read.status)
      && (forall e :: e in events && e.TaskCompleted? ==> e == TaskCompleted(updated) && updated.status != read.status)
    case _ => forall e :: e in events ==> !OfStatus(e)
  }

  predicate TxsTell(txs: map<TxId, Tx>) {
    forall t :: t in txs && txs[t].Ready? ==> Tells(txs[t].write, txs[t].events)
  }

  lemma UpdateTells(updated: Task, read: Task, engine: Option<Definition>)
    requires updated.status != read.status ==> engine.Some? && KnownName(engine.value, updated.status)
    requires updated.id == read.id
    ensures Tells(Update(read, updated), UpdateEvents(updated, read, engine))
  {
    hide Completes;
    EventsSayWhatMoved(updated, read, engine);
  }

  lemma PlainTells(task: Task, id: nat, read: Task, version: int, d: Definition, announce: bool)
    ensures Tells(Insert(task), [TaskCreated(task)]) && Tells(Remove(id), [TaskDeleted(read)])
    ensures Tells(Install(version, d), if announce then [WorkflowUpdated(version, Names(d.states))] else [])
  {
  }

  lemma DecideTells(fold: Fold, s: Db, t: TxId, id: nat, next: Db)
    requires TxsTell(s.txs) && t in s.txs && Do(fold, s, Decide(t, id)) == Some(next)
    ensures TxsTell(next.txs)
  {
    hide DecideCreate, DecideEdit, UpdateEvents, Tells, ValidDefinition;
    match s.txs[t]
    case WithEngine(op, engine) => PlainTells(DecideCreate(fold, s, op, engine, id).value, 0, DecideCreate(fold, s, op, engine, id).value, 0, engine, false);
    case WithTask(op, checked, read) =>
      if op.Delete? {
        PlainTells(read, op.id, read, 0, Definition([], map[]), false);
      } else {
        UpdateTells(DecideEdit(fold, s, op, checked, read).value, read, checked);
      }
  }

  lemma OthersTell(fold: Fold, s: Db, step: Step, next: Db)
    requires TxsTell(s.txs) && Do(fold, s, step) == Some(next) && !step.Decide?
    ensures TxsTell(next.txs)
  {
    hide WellFormed, DocumentRules, Print, Denotation, Highest, StatusesKnown, Seed.DefaultDefinition, Tells, Apply, Entries;
    if step.PickVersion? {
      var tx := s.txs[step.t];
      PlainTells(Task(0, "", "", None, "", 0), 0, Task(0, "", "", None, "", 0), Highest(s.documents.Keys) + 1, tx.definition, tx.announce);
    }
    if step.Commit? { ApplyTouchesTables(s, s.txs[step.t].write); }
  }

  lemma StepTells(fold: Fold, s: Db, step: Step, next: Db)
    requires TxsTell(s.txs) && Do(fold, s, step) == Some(next)
    ensures TxsTell(next.txs)
  {
    hide Do, TxsTell;
    if step.Decide? {
      NeedsTx(fold, s, step, next);
      DecideTells(fold, s, step.t, step.id, next);
    } else {
      OthersTell(fold, s, step, next);
    }
  }

  // ----- What an event says -----

  /** The event's pair is the row's own move. */
  predicate Describes(s: Db, next: Db, e: Event)
    requires e.TaskStatusChanged?
  {
    && e.task.id in s.tasks && e.task.id in next.tasks
    && s.tasks[e.task.id].status == e.fromStatus && next.tasks[e.task.id].status == e.toStatus
  }

  /** Every status event the step commits describes the row's own move. */
  predicate EventsDescribe(s: Db, next: Db) {
    forall i :: |s.log| <= i < |next.log| && next.log[i].event.TaskStatusChanged? ==> Describes(s, next, next.log[i].event)
  }

  /** A commit of an edit, seen from its row. */
  lemma CommittedEdit(fold: Fold, s: Db, t: TxId, next: Db)
    requires Inv(s) && t in s.txs && s.txs[t].Ready? && Do(fold, s, Commit(t)) == Some(next)
    ensures
      var tx := s.txs[t];
      && next.log == s.log + Entries(tx.events, tx.roles, Highest(s.documents.Keys))
      && (tx.write.Update? ==>
            && tx.write.read.id in s.tasks && tx.write.updated.id == tx.write.read.id
            && next.tasks == s.tasks[tx.write.read.id := Merge(s.tasks[tx.write.read.id], tx.write.read, tx.write.updated)])
  {
    hide Highest, Entries, Merge, KeyFree, Print, EventsOk, Announced, WellFormed, DocumentRules, Denotation;
    TxAt(s, t);
  }

  lemma LoggedEvents(s: Db, next: Db, events: seq<Event>, roles: set<string>, version: int)
    requires next.log == s.log + Entries(events, roles, version)
    ensures forall i :: |s.log| <= i < |next.log| ==> next.log[i].event in events
    ensures forall e :: e in events ==> exists i :: |s.log| <= i < |next.log| && next.log[i].event == e
  {
    forall e | e in events ensures exists i :: |s.log| <= i < |next.log| && next.log[i].event == e {
      Logged(s, next, events, roles, version, e);
    }
  }

  lemma CommitDescribesIff(fold: Fold, s: Db, t: TxId, next: Db)
    requires Inv(s) && TxsTell(s.txs) && t in s.txs && s.txs[t].Ready? && Do(fold, s, Commit(t)) == Some(next)
    ensures EventsDescribe(s, next) <==> !Overtakes(s, Commit(t))
  {
    hide Do, Inv, Merge, Entries, Highest;
    var tx := s.txs[t];
    assert Tells(tx.write, tx.events);
    CommittedEdit(fold, s, t, next);
    LoggedEvents(s, next, tx.events, tx.roles, Highest(s.documents.Keys));
    if tx.write.Update? {
      var read, updated := tx.write.read, tx.write.updated;
      MergeMoves(s.tasks[read.id], read, updated);
      if updated.status != read.status {
        var e := TaskStatusChanged(updated, read.status, updated.status);
        var i :| |s.log| <= i < |next.log| && next.log[i].event == e;
        assert Describes(s, next, e) <==> !Overtakes(s, Commit(t));
      }
    }
  }

  /** The events of a step describe the rows' own moves exactly when the step overtakes nothing: when
      the status at the commit is still the one the writer read. */
  lemma StepDescribesIff(fold: Fold, s: Db, step: Step, next: Db)
    requires Inv(s) && TxsTell(s.txs) && Do(fold, s, step) == Some(next)
    ensures EventsDescribe(s, next) <==> !Overtakes(s, step)
  {
    hide Do, Inv, TxsTell;
    if step.Commit? {
      CommitIsReady(fold, s, step.t, next);
      CommitDescribesIff(fold, s, step.t, next);
    } else {
      OnlyCommitsWrite(fold, s, step, next);
    }
  }

  lemma CommitIsReady(fold: Fold, s: Db, t: TxId, next: Db)
    requires Do(fold, s, Commit(t)) == Some(next)
    ensures t in s.txs && s.txs[t].Ready?
  {
    hide DoCommit;
  }

  /** A completion event is the row entering its state exactly when the row was not there already;
      two writers that read the same status can both announce one completion. */
  lemma CompletionEntersIff(fold: Fold, s: Db, step: Step, next: Db, i: nat)
    requires Inv(s) && TxsTell(s.txs) && Do(fold, s, step) == Some(next)
    requires |s.log| <= i < |next.log| && next.log[i].event.TaskCompleted?
    ensures
      var task := next.log[i].event.task;
      && task.id in s.tasks && task.id in next.tasks && next.tasks[task.id].status == task.status
      && (next.tasks[task.id].status != s.tasks[task.id].status <==> s.tasks[task.id].status != task.status)
  {
    hide Do, Inv, Merge, Entries, Highest;
    if step.Commit? {
      CommitIsReady(fold, s, step.t, next);
      var tx := s.txs[step.t];
      assert Tells(tx.write, tx.events);
      CommittedEdit(fold, s, step.t, next);
      LoggedEvents(s, next, tx.events, tx.roles, Highest(s.documents.Keys));
      assert tx.write.Update?;
      MergeMoves(s.tasks[tx.write.read.id], tx.write.read, tx.write.updated);
    } else {
      OnlyCommitsWrite(fold, s, step, next);
      assert false;
    }
  }

  // ----- How rows move -----

  /** Each row the step moves goes along a transition of the active definition whose roles guard
      the actor meets. */
  ghost predicate MovesLegally(s: Db, step: Step, next: Db) {
    forall id :: id in s.tasks && id in next.tasks && s.tasks[id].status != next.tasks[id].status ==>
      && step.Commit? && step.t in s.txs && s.txs[step.t].Ready? && Active(s).Some?
      && MoveAllowed(Active(s).value, s.tasks[id].status, next.tasks[id].status, s.txs[step.t].roles)
  }

  lemma CommitMovesLegally(fold: Fold, s: Db, t: TxId, next: Db)
    requires Inv(s) && TxsTell(s.txs) && t in s.txs && s.txs[t].Ready? && Do(fold, s, Commit(t)) == Some(next)
    requires s.txs[t].write.Update? && !Overtakes(s, Commit(t))
    ensures MovesLegally(s, Commit(t), next)
  {
    hide Do, Inv, Merge, Entries, Highest, WellFormed, DocumentRules, Denotation, MoveAllowed;
    var tx := s.txs[t];
    var read, updated := tx.write.read, tx.write.updated;
    CommittedEdit(fold, s, t, next);
    MergeMoves(s.tasks[read.id], read, updated);
    if updated.status != read.status {
      TxAt(s, t);
      var e := TaskStatusChanged(updated, read.status, updated.status);
      var k :| 0 <= k < |tx.events| && tx.events[k] == e;
      assert Legal(tx.events[k], tx.roles, Active(s));
    }
  }

  lemma OtherCommitsMoveNothing(fold: Fold, s: Db, t: TxId, next: Db)
    requires t in s.txs && s.txs[t].Ready? && Do(fold, s, Commit(t)) == Some(next) && !s.txs[t].write.Update?
    ensures forall id :: id in s.tasks && id in next.tasks ==> next.tasks[id] == s.tasks[id]
  {
    hide Highest, Entries, KeyFree, Print;
  }

  /** A step that overtakes nothing moves every row along a defined, permitted transition. */
  lemma StepMovesLegally(fold: Fold, s: Db, step: Step, next: Db)
    requires Inv(s) && TxsTell(s.txs) && Do(fold, s, step) == Some(next) && !Overtakes(s, step)
    ensures MovesLegally(s, step, next)
  {
    hide Do, Inv, TxsTell, Overtakes;
    if step.Commit? {
      CommitIsReady(fold, s, step.t, next);
      if s.txs[step.t].write.Update? {
        CommitMovesLegally(fold, s, step.t, next);
      } else {
        OtherCommitsMoveNothing(fold, s, step.t, next);
      }
    } else {
      OnlyCommitsWrite(fold, s, step, next);
    }
  }

  // ----- Runs -----

  ghost predicate DescribedThroughout(fold: Fold, s: Db, steps: seq<Step>)
    decreases |steps|
  {
    steps != [] && Do(fold, s, steps[0]).Some? ==>
      var next := Do(fold, s, steps[0]).value;
      EventsDescribe(s, next) && DescribedThroughout(fold, next, steps[1..])
  }

  ghost predicate NeverOvertakes(fold: Fold, s: Db, steps: seq<Step>)
    decreases |steps|
  {
    steps != [] && Do(fold, s, steps[0]).Some? ==>
      !Overtakes(s, steps[0]) && NeverOvertakes(fold, Do(fold, s, steps[0]).value, steps[1..])
  }

  ghost predicate LegalThroughout(fold: Fold, s: Db, steps: seq<Step>)
    decreases |steps|
  {
    steps != [] && Do(fold, s, steps[0]).Some? ==>
      var next := Do(fold, s, steps[0]).value;
      MovesLegally(s, steps[0], next) && LegalThroughout(fold, next, steps[1..])
  }

  lemma {:induction false} DescribedFrom(fold: Fold, s: Db, steps: seq<Step>)
    requires Inv(s) && TxsTell(s.txs)
    ensures DescribedThroughout(fold, s, steps) <==> NeverOvertakes(fold, s, steps)
    ensures NeverOvertakes(fold, s, steps) ==> LegalThroughout(fold, s, steps)
    decreases |steps|
  {
    hide Do, Inv, TxsTell, EventsDescribe, Overtakes, MovesLegally;
    if steps != [] && Do(fold, s, steps[0]).Some? {
      var next := Do(fold, s, steps[0]).value;
      StepDescribesIff(fold, s, steps[0], next);
      if !Overtakes(s, steps[0]) { StepMovesLegally(fold, s, steps[0], next); }
      StepKeeps(fold, s, steps[0], next);
      StepTells(fold, s, steps[0], next);
      DescribedFrom(fold, next, steps[1..]);
    }
  }

  lemma InitTells()
    ensures Inv(Init) && TxsTell(Init.txs)
  {
    hide KnownName;
  }

  /** From the first state on, every committed status event is the row's own move if and only if no
      step commits a status write over a moved status. */
  lemma EventsDescribeMovesIff(fold: Fold, steps: seq<Step>)
    ensures DescribedThroughout(fold, Init, steps) <==> NeverOvertakes(fold, Init, steps)
  {
    hide Do, Inv;
    InitTells();
    DescribedFrom(fold, Init, steps);
  }

  /** And such runs keep every row on defined transitions: whatever moves a row follows a transition
      of the definition active at that commit, whose roles guard the actor meets. */
  lemma RowsStayOnTransitions(fold: Fold, steps: seq<Step>)
    requires NeverOvertakes(fold, Init, steps)
    ensures LegalThroughout(fold, Init, steps)
  {
    hide Do, Inv;
    InitTells();
    DescribedFrom(fold, Init, steps);
  }

  lemma {:induction false} RunTells(fold: Fold, s: Db, steps: seq<Step>)
    requires TxsTell(s.txs) && Run(fold, s, steps).Some?
    ensures TxsTell(Run(fold, s, steps).value.txs)
    decreases |steps|
  {
    hide Do, TxsTell;
    if steps != [] {
      var next := Do(fold, s, steps[0]).value;
      StepTells(fold, s, steps[0], next);
      RunTells(fold, next, steps[1..]);
    }
  }

  /** In a reached state, a status write that commits over the status it read moves its row along a
      transition of the active definition that the actor may take. */
  lemma UnovertakenMoveIsLegal(fold: Fold, s: Db, step: Step, next: Db)
    requires Reached(fold, s) && Do(fold, s, step) == Some(next)
    ensures EventsDescribe(s, next) <==> !Overtakes(s, step)
    ensures !Overtakes(s, step) ==> MovesLegally(s, step, next)
  {
    hide Do, Inv, Run, EventsDescribe, Overtakes, MovesLegally;
    ReachedInv(fold, s);
    InitTells();
    var steps :| Run(fold, Init, steps) == Some(s);
    RunTells(fold, Init, steps);
    StepDescribesIff(fold, s, step, next);
    if !Overtakes(s, step) { StepMovesLegally(fold, s, step, next); }
  }
}
