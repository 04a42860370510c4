/** How far a WIP limit can be overshot. The occupancy read is not serialised between task writes,
    so writers that passed the check but have not committed count against the bound. */
module WipBound {
  import opened Wrappers
  import opened Json
  import opened Sets
  import opened Definitions
  import opened Documents
  import opened Engine
  import opened Tasks
  import opened GuardProtocol
  import opened GuardSafety

  /** A transaction that has passed the check on `status` and not yet committed. */
  predicate Entering(tx: Tx, status: string) {
    tx.Ready? &&
    match tx.write
    case Insert(task) => task.status == status
    case Update(read, updated) => updated.status == status && read.status != status
    case _ => false
  }

  function Pending(s: Db, status: string): set<TxId> {
    set t | t in s.txs && Entering(s.txs[t], status)
  }

  /** Work items in the state, plus the writers about to add to it. */
  function Load(s: Db, status: string): nat {
    CountIn(s.tasks, status) + |Pending(s, status)|
  }

  /** The state's limit, as `_check_wip` reads it. */
  predicate HasLimit(d: Definition, status: string, limit: nat) {
    KnownName(d, status) && MetaOf(FindState(d.states, status).meta, WIP_LIMIT_META_KEY) == Int(limit)
  }

  // ----- Counting -----

  lemma PendingShares(s: Db, status: string)
    requires Inv(s)
    ensures Pending(s, status) <= s.shared
  {
    hide WellFormed, DocumentRules, Print, Denotation;
    forall t | t in Pending(s, status) ensures t in s.shared { TxAt(s, t); }
  }

  lemma SameTasksLoad(s: Db, next: Db, status: string)
    requires next.tasks == s.tasks && Pending(next, status) <= Pending(s, status)
    ensures Load(next, status) <= Load(s, status)
  {
    SubsetSize(Pending(next, status), Pending(s, status));
  }

  /** Writing one row adds at most that row to a state, and nothing if it was there or goes elsewhere. */
  lemma PutCount(tasks: map<nat, Task>, id: nat, task: Task, status: string)
    ensures
      var counted := CountIn(tasks[id := task], status);
      && counted <= CountIn(tasks, status) + 1
      && (task.status != status || (id in tasks && tasks[id].status == status) ==> counted <= CountIn(tasks, status))
  {
    var before, after := InState(tasks, status), InState(tasks[id := task], status);
    SubsetSize(after, before + {id});
    if task.status != status || (id in tasks && tasks[id].status == status) { SubsetSize(after, before); }
  }

  lemma DropCount(tasks: map<nat, Task>, id: nat, status: string)
    ensures CountIn(tasks - {id}, status) <= CountIn(tasks, status)
  {
    SubsetSize(InState(tasks - {id}, status), InState(tasks, status));
  }

  lemma ApplyCount(s: Db, write: Write, applied: Db, status: string)
    requires Apply(s, write) == Some(applied) && !write.Install?
    requires write.Update? ==> write.read.id == write.updated.id
    ensures CountIn(applied.tasks, status) <= CountIn(s.tasks, status) + if Entering(Ready(write, [], {}), status) then 1 else 0
  {
    hide KeyFree, Merge, Print, CountIn;
    match write
    case Insert(task) => PutCount(s.tasks, task.id, task, status);
    case Update(read, updated) =>
      MergeMoves(s.tasks[read.id], read, updated);
      PutCount(s.tasks, read.id, Merge(s.tasks[read.id], read, updated), status);
    case Remove(id) => DropCount(s.tasks, id, status);
  }

  lemma PendingDrops(s: Db, t: TxId, next: Db, status: string)
    requires t in s.txs && next.txs == s.txs - {t}
    ensures |Pending(next, status)| + (if Entering(s.txs[t], status) then 1 else 0) <= |Pending(s, status)|
  {
    if Entering(s.txs[t], status) {
      SubsetSize(Pending(next, status), Pending(s, status) - {t});
    } else {
      SubsetSize(Pending(next, status), Pending(s, status));
    }
  }

  /** A commit turns at most one pending entry into at most one more work item. */
  lemma CommitLoad(s: Db, t: TxId, write: Write, events: seq<Event>, roles: set<string>, next: Db, status: string)
    requires t in s.txs && s.txs[t] == Ready(write, events, roles) && !write.Install?
    requires write.Update? ==> write.read.id == write.updated.id
    requires DoCommit(s, t, write, events, roles) == Some(next)
    ensures Load(next, status) <= Load(s, status)
  {
    hide WellFormed, Highest, Apply, CountIn, Pending;
    ApplyCount(s, write, Apply(s, write).value, status);
    ApplyTouchesTables(s, write);
    PendingDrops(s, t, next, status);
  }

  lemma CountLookup(tasks: map<nat, Task>, status: string)
    ensures (if status in CountByStatus(tasks) then CountByStatus(tasks)[status] else 0) == CountIn(tasks, status)
  {
    if status !in CountByStatus(tasks) {
      assert InState(tasks, status) == {};
    }
  }

  /** Passing the check means the state was below its limit when counted. */
  lemma CheckedBelow(d: Definition, tasks: map<nat, Task>, status: string, limit: nat, counts: map<string, nat>)
    requires HasLimit(d, status, limit) && counts == CountByStatus(tasks)
    requires CheckWip(d, status, counts).None?
    ensures CountIn(tasks, status) < limit
  {
    CountLookup(tasks, status);
  }

  lemma CreateBelow(fold: Fold, s: Db, op: Op, engine: Definition, id: nat, status: string, limit: nat)
    requires op.Create? && ValidDefinition(engine) && HasLimit(engine, status, limit)
    requires DecideCreate(fold, s, op, engine, id).Some?
    requires DecideCreate(fold, s, op, engine, id).value.status == status
    ensures CountIn(s.tasks, status) < limit
  {
    var counts := Occupancy(s.tasks, engine, None, op.status);
    assert ResolveEntry(engine, op.status, Context({}, counts)) == Ok(status);
    assert EntryState(engine, op.status) == Ok(status) && CheckWip(engine, status, counts).None?;
    assert NeedsOccupancy(engine, None, op.status);
    CheckedBelow(engine, s.tasks, status, limit, counts);
  }

  lemma EditBelow(fold: Fold, s: Db, op: Op, engine: Definition, read: Task, status: string, limit: nat)
    requires (op.Replace? || op.PatchTask?) && TakesShared(op)
    requires ValidDefinition(engine) && HasLimit(engine, status, limit) && read.status != status
    requires DecideEdit(fold, s, op, Some(engine), read).Some?
    requires DecideEdit(fold, s, op, Some(engine), read).value.status == status
    ensures CountIn(s.tasks, status) < limit
  {
    assert Target(op, engine, read) == status;
    var counts := Occupancy(s.tasks, engine, Some(read.status), Some(status));
    assert CheckMove(engine, read.status, status, Context(op.roles, counts)).None?;
    assert CheckWip(engine, status, counts).None? && NeedsOccupancy(engine, Some(read.status), Some(status));
    CheckedBelow(engine, s.tasks, status, limit, counts);
  }

  /** A decision to enter found the state below its limit, and joins at most the lock holders. */
  lemma DecideLoad(s: Db, t: TxId, next: Db, status: string, limit: nat)
    requires Inv(s) && Inv(next) && t in s.txs && !s.txs[t].Ready?
    requires next.tasks == s.tasks && t in next.txs && next.txs == s.txs[t := next.txs[t]]
    requires Entering(next.txs[t], status) ==> CountIn(s.tasks, status) < limit
    ensures Load(next, status) <= Load(s, status) || Load(next, status) <= limit - 1 + |next.shared|
  {
    hide Inv;
    if Entering(next.txs[t], status) {
      PendingShares(next, status);
      SubsetSize(Pending(next, status), next.shared);
    } else {
      SameTasksLoad(s, next, status);
    }
  }

  // ----- One step -----

  lemma DecideStepLoad(fold: Fold, s: Db, t: TxId, id: nat, next: Db, status: string, limit: nat)
    requires Inv(s) && Inv(next) && t in s.txs && Do(fold, s, Decide(t, id)) == Some(next)
    requires Active(s).Some? && HasLimit(Active(s).value, status, limit)
    ensures Load(next, status) <= Load(s, status) || Load(next, status) <= limit - 1 + |next.shared|
  {
    hide Inv, WellFormed, DocumentRules, Print, Denotation, HasLimit, DecideCreate, DecideEdit, UpdateEvents;
    TxAt(s, t);
    match s.txs[t]
    case WithEngine(op, engine) =>
      if DecideCreate(fold, s, op, engine, id).value.status == status {
        CreateBelow(fold, s, op, engine, id, status, limit);
      }
      DecideLoad(s, t, next, status, limit);
    case WithTask(op, checked, read) =>
      if !op.Delete? {
        var updated := DecideEdit(fold, s, op, checked, read).value;
        if updated.status == status && read.status != status {
          EditBelow(fold, s, op, checked.value, read, status, limit);
        }
      }
      DecideLoad(s, t, next, status, limit);
  }

  lemma OtherStepLoad(fold: Fold, s: Db, step: Step, next: Db, status: string)
    requires Do(fold, s, step) == Some(next) && !step.Commit? && !step.Decide?
    ensures Load(next, status) <= Load(s, status)
  {
    hide WellFormed, DocumentRules, Print, Denotation, CountIn;
    SameTasksLoad(s, next, status);
  }

  /** While the definition stands, no step raises the load past what the lock holders allow. */
  lemma StepLoad(fold: Fold, s: Db, step: Step, next: Db, status: string, limit: nat)
    requires Inv(s) && Do(fold, s, step) == Some(next) && next.installed == s.installed
    requires Active(s).Some? && HasLimit(Active(s).value, status, limit)
    ensures Load(next, status) <= Load(s, status) || Load(next, status) <= limit - 1 + |next.shared|
  {
    hide WellFormed, DocumentRules, Print, Denotation, HasLimit, Load;
    StepKeeps(fold, s, step, next);
    match step
    case Decide(t, id) => DecideStepLoad(fold, s, t, id, next, status, limit);
    case Commit(t) =>
      TxAt(s, t);
      var tx := s.txs[t];
      if tx.write.Install? {
        InstallCommitKeeps(s, t, tx.write, tx.events, tx.roles, next);
      } else {
        CommitLoad(s, t, tx.write, tx.events, tx.roles, next, status);
      }
    case _ => OtherStepLoad(fold, s, step, next, status);
  }

  // ----- Runs between two installs -----

  /** A run in which the definition is not replaced and at most `k` task writes are in flight. */
  ghost predicate Between(fold: Fold, s: Db, steps: seq<Step>, k: nat)
    decreases |steps|
  {
    steps != [] ==>
      && Do(fold, s, steps[0]).Some?
      && Do(fold, s, steps[0]).value.installed == s.installed
      && |Do(fold, s, steps[0]).value.shared| <= k
      && Between(fold, Do(fold, s, steps[0]).value, steps[1..], k)
  }

  lemma {:induction false} LoadIsBounded(fold: Fold, s: Db, steps: seq<Step>, status: string, limit: nat, k: nat)
    requires Inv(s) && Between(fold, s, steps, k)
    requires Active(s).Some? && HasLimit(Active(s).value, status, limit)
    ensures Run(fold, s, steps).Some?
    ensures
      var end := Run(fold, s, steps).value;
      Load(end, status) <= Load(s, status) || Load(end, status) <= limit - 1 + k
    decreases |steps|
  {
    hide Inv, Active, HasLimit, Load, Do;
    if steps != [] {
      var next := Do(fold, s, steps[0]).value;
      StepKeeps(fold, s, steps[0], next);
      StepLoad(fold, s, steps[0], next, status, limit);
      ActiveStands(s, next);
      LoadIsBounded(fold, next, steps[1..], status, limit, k);
    }
  }

  lemma ActiveStands(s: Db, next: Db)
    requires next.installed == s.installed
    ensures Active(next) == Active(s)
  {
  }

  /** WIP overshoot is bounded. From the commit that installs a definition until the next one, with
      never more than `k` task writes in flight, the work items in a limited state plus the writers
      about to enter it never exceed limit + k - 1, or what the state held at the install if that
      was already more. */
  lemma OvershootIsBounded(fold: Fold, s: Db, t: TxId, installed: Db, steps: seq<Step>, status: string, limit: nat, k: nat)
    requires Reached(fold, s) && t in s.txs && s.txs[t].Ready? && s.txs[t].write.Install?
    requires Do(fold, s, Commit(t)) == Some(installed)
    requires HasLimit(s.txs[t].write.definition, status, limit) && k >= 1
    requires Between(fold, installed, steps, k)
    ensures Run(fold, installed, steps).Some?
    ensures
      var end := Run(fold, installed, steps).value;
      var held := CountIn(installed.tasks, status);
      Load(end, status) <= if held > limit + k - 1 then held else limit + k - 1
  {
    hide Do, Reached, Inv, Active, HasLimit, Load, CountIn;
    InstallStarts(fold, s, t, installed, status);
    LoadIsBounded(fold, installed, steps, status, limit, k);
  }

  /** An install is active at once, with no writer past a check. */
  lemma InstallStarts(fold: Fold, s: Db, t: TxId, installed: Db, status: string)
    requires Reached(fold, s) && t in s.txs && s.txs[t].Ready? && s.txs[t].write.Install?
    requires Do(fold, s, Commit(t)) == Some(installed)
    ensures Inv(installed) && Active(installed) == Some(s.txs[t].write.definition)
    ensures Load(installed, status) == CountIn(installed.tasks, status)
  {
    hide WellFormed, DocumentRules, Print, Denotation, Inv, Active, CountIn, DoCommit;
    ReachedInv(fold, s);
    var tx := s.txs[t];
    InstallCommitKeeps(s, t, tx.write, tx.events, tx.roles, installed);
    PendingShares(installed, status);
    assert Pending(installed, status) == {};
  }

  /** One task write at a time never exceeds the limit. */
  lemma SerialNeverOvershoots(fold: Fold, s: Db, t: TxId, installed: Db, steps: seq<Step>, status: string, limit: nat)
    requires Reached(fold, s) && t in s.txs && s.txs[t].Ready? && s.txs[t].write.Install?
    requires Do(fold, s, Commit(t)) == Some(installed)
    requires HasLimit(s.txs[t].write.definition, status, limit) && CountIn(installed.tasks, status) <= limit
    requires Between(fold, installed, steps, 1)
    ensures Run(fold, installed, steps).Some? && CountIn(Run(fold, installed, steps).value.tasks, status) <= limit
  {
    hide HasLimit, Do, Reached;
    OvershootIsBounded(fold, s, t, installed, steps, status, limit, 1);
  }

  lemma InsertCounts(tasks: map<nat, Task>, task: Task)
    requires task.id !in tasks
    ensures CountIn(tasks[task.id := task], task.status) == CountIn(tasks, task.status) + 1
  {
    assert InState(tasks[task.id := task], task.status) == InState(tasks, task.status) + {task.id};
  }
}
