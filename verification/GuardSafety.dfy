/** Safety of the guard protocol over every run: no task is stranded, every committed status event
    was legal under the definition active at its commit, versions are exactly 1..n and always
    read back as installed. */
module GuardSafety {
  import opened Wrappers
  import opened Json
  import opened Definitions
  import opened Documents
  import opened DocumentLaws
  import opened Engine
  import opened Tasks
  import Seed
  import opened GuardProtocol

  // ----- What is claimed of a state -----

  /** The definition version `v` was installed as. */
  ghost function DefinitionAt(installed: map<int, Definition>, v: int): Option<Definition> {
    if v in installed then Some(installed[v]) else None
  }

  ghost function Active(s: Db): Option<Definition> {
    DefinitionAt(s.installed, |s.installed|)
  }

  /** The keys are exactly 1..n. */
  ghost predicate Numbered<T>(m: map<int, T>) {
    forall v :: v in m <==> 1 <= v <= |m|
  }

  /** Versions are exactly 1..n, and each document is the print of what was installed. */
  ghost predicate VersionsOk(documents: map<int, JSON>, installed: map<int, Definition>) {
    && documents.Keys == installed.Keys
    && Numbered(installed)
    && (forall v :: v in installed ==> DocumentRules(installed[v]) && documents[v] == Print(installed[v]))
  }

  /** Every task sits in a state of the active definition; without one there are no tasks. */
  ghost predicate NoneStranded(s: Db) {
    match Active(s)
    case None => s.tasks == map[]
    case Some(d) => StatusesKnown(s.tasks, d)
  }

  /** What an event promises about the definition it was decided under. */
  ghost predicate Legal(e: Event, roles: set<string>, active: Option<Definition>) {
    match e
    case TaskCreated(task) =>
      active.Some? && ValidDefinition(active.value) && task.status in EntryStates(active.value)
    case TaskStatusChanged(task, from, to) =>
      active.Some? && task.status == to && from != to && MoveAllowed(active.value, from, to, roles)
    case TaskCompleted(task) =>
      active.Some? && KnownName(active.value, task.status) && Completes(active.value, task.status)
    case _ => true
  }

  predicate NeedsDefinition(e: Event) {
    e.TaskCreated? || e.TaskStatusChanged? || e.TaskCompleted?
  }

  ghost predicate LogOk(log: seq<Entry>, installed: map<int, Definition>) {
    forall i :: 0 <= i < |log| ==>
      && 0 <= log[i].version <= |installed|
      && Legal(log[i].event, log[i].roles, DefinitionAt(installed, log[i].version))
  }

  // ----- What is kept about a transaction in flight -----

  /** A transaction's write and events, given what it holds and what is active. */
  ghost predicate WriteOk(write: Write, shares: bool, excludes: bool, active: Option<Definition>,
                          tasks: map<nat, Task>, next: int) {
    match write
    case Insert(task) => shares && active.Some? && KnownName(active.value, task.status)
    case Update(read, updated) =>
      && read.id == updated.id
      && (updated.status != read.status ==> shares && active.Some? && KnownName(active.value, updated.status))
    case Remove(_) => true
    case Install(version, d) => excludes && version == next && DocumentRules(d) && StatusesKnown(tasks, d)
  }

  /** The events staged with a write say what it does to the row. */
  predicate Announced(write: Write, events: seq<Event>) {
    match write
    case Insert(task) => TaskCreated(task) in events
    case Update(read, updated) =>
      && (updated.status != read.status ==> TaskStatusChanged(updated, read.status, updated.status) in events)
      && (ChangedFields(updated, read) != [] ==> TaskUpdated(updated, read, ChangedFields(updated, read)) in events)
    case Remove(id) => exists e :: e in events && e.TaskDeleted? && e.task.id == id
    case Install(_, _) => true
  }

  ghost predicate EventsOk(events: seq<Event>, roles: set<string>, shares: bool, active: Option<Definition>) {
    forall i :: 0 <= i < |events| ==>
      Legal(events[i], roles, active) && (NeedsDefinition(events[i]) ==> shares)
  }

  ghost predicate TxOk(tx: Tx, shares: bool, excludes: bool, active: Option<Definition>,
                       tasks: map<nat, Task>, next: int) {
    match tx
    case Started(_) => true
    case Guarded(op) =>
      && (TakesShared(op) ==> shares)
      && (TakesExclusive(op) ==> excludes)
      && (op.PutWorkflow? ==> WellFormed(op.document))
    case WithEngine(op, engine) => shares && TakesShared(op) && active == Some(engine)
    case WithTask(op, checked, read) =>
      && NamesTask(op) && read.id == op.id
      && (checked.Some? ==> shares && active == checked && KnownName(checked.value, read.status))
    case Cleared(d, _) => excludes && DocumentRules(d) && StatusesKnown(tasks, d)
    case Ready(write, events, roles) =>
      && WriteOk(write, shares, excludes, active, tasks, next)
      && EventsOk(events, roles, shares, active)
      && Announced(write, events)
  }

  ghost predicate TxsOk(s: Db) {
    forall t :: t in s.txs ==>
      TxOk(s.txs[t], t in s.shared, s.exclusive == Some(t), Active(s), s.tasks, |s.installed| + 1)
  }

  ghost predicate LocksOk(s: Db) {
    s.exclusive.Some? ==> s.shared == {}
  }

  predicate RowsKeyed(tasks: map<nat, Task>) {
    forall id :: id in tasks ==> tasks[id].id == id
  }

  /** The invariant of every run. */
  ghost predicate Inv(s: Db) {
    && VersionsOk(s.documents, s.installed) && NoneStranded(s) && LogOk(s.log, s.installed)
    && LocksOk(s) && RowsKeyed(s.tasks) && TxsOk(s)
  }

  // ----- Reading -----

  lemma HighestIsLast(documents: map<int, JSON>, installed: map<int, Definition>)
    requires VersionsOk(documents, installed)
    ensures Highest(documents.Keys) == |installed|
  {
    hide WellFormed, DocumentRules, Print, Denotation;
    var n := |installed|;
    if n > 0 {
      assert IsMax(n, documents.Keys);
    } else {
      forall v ensures !IsMax(v, documents.Keys) { }
    }
  }

  /** `get_active` always reads back exactly what was last installed. */
  lemma ActiveReadsBack(s: Db)
    requires Inv(s) && s.documents != map[]
    ensures
      var version := Highest(s.documents.Keys);
      && version in s.documents && WellFormed(s.documents[version])
      && Active(s) == Some(Denotation(s.documents[version]))
      && s.installed[version] == Denotation(s.documents[version])
  {
    HighestIsLast(s.documents, s.installed);
    var n := |s.installed|;
    var v :| v in s.documents;
    RoundTrip(s.installed[n]);
  }

  // ----- Steps that write no table -----

  /** The tables and the log stand still, only `t` moved: its own clause is all there is to show. */
  lemma LocalStep(s: Db, next: Db, t: TxId)
    requires Inv(s) && LocksOk(next)
    requires next.documents == s.documents && next.installed == s.installed && next.tasks == s.tasks && next.log == s.log
    requires forall u :: u != t ==> (u in next.txs ==> u in s.txs && next.txs[u] == s.txs[u])
    requires forall u :: u != t ==> (u in next.shared <==> u in s.shared)
    requires forall u :: u != t && s.exclusive == Some(u) ==> next.exclusive == Some(u)
    requires t in next.txs ==>
      TxOk(next.txs[t], t in next.shared, next.exclusive == Some(t), Active(s), s.tasks, |s.installed| + 1)
    ensures Inv(next)
  {
    hide WellFormed, DocumentRules, Print, Denotation;
    forall u | u in next.txs
      ensures TxOk(next.txs[u], u in next.shared, next.exclusive == Some(u), Active(s), s.tasks, |s.installed| + 1)
    {
      if u != t {
        assert TxOk(s.txs[u], u in s.shared, s.exclusive == Some(u), Active(s), s.tasks, |s.installed| + 1);
        MoreExclusion(next.txs[u], u in s.shared, s.exclusive == Some(u), next.exclusive == Some(u),
                      Active(s), s.tasks, |s.installed| + 1);
      }
    }
  }

  lemma TxAt(s: Db, t: TxId)
    requires Inv(s) && t in s.txs
    ensures TxOk(s.txs[t], t in s.shared, s.exclusive == Some(t), Active(s), s.tasks, |s.installed| + 1)
    ensures LocksOk(s) && RowsKeyed(s.tasks) && NoneStranded(s)
  {
    hide WellFormed, DocumentRules, Print, Denotation;
  }

  lemma MoreExclusion(tx: Tx, shares: bool, had: bool, has: bool, active: Option<Definition>, tasks: map<nat, Task>, next: int)
    requires TxOk(tx, shares, had, active, tasks, next) && (had ==> has)
    ensures TxOk(tx, shares, has, active, tasks, next)
  {
    hide WellFormed, DocumentRules, Print, Denotation;
  }

  lemma AcquireKeeps(s: Db, t: TxId, op: Op, next: Db)
    requires Inv(s) && t in s.txs && s.txs[t] == Started(op) && DoAcquire(s, t, op) == Some(next)
    ensures Inv(next)
  {
    hide Inv, WellFormed, DocumentRules, Print, Denotation;
    TxAt(s, t);
    LocalStep(s, next, t);
  }

  lemma ReadDefinitionKeeps(s: Db, t: TxId, op: Op, next: Db)
    requires Inv(s) && t in s.txs && s.txs[t] == Guarded(op) && DoReadDefinition(s, t, op) == Some(next)
    ensures Inv(next)
  {
    hide Inv, WellFormed, DocumentRules, Print, Denotation;
    TxAt(s, t);
    ActiveReadsBack(s);
    LocalStep(s, next, t);
  }

  lemma ReadTaskKeeps(s: Db, t: TxId, op: Op, checked: Option<Definition>, next: Db)
    requires Inv(s) && t in s.txs && DoReadTask(s, t, op, checked) == Some(next)
    requires match s.txs[t] case Started(o) => checked == None case WithEngine(o, e) => checked == Some(e) case _ => false
    ensures Inv(next)
  {
    hide Inv, WellFormed, DocumentRules, Print, Denotation;
    TxAt(s, t);
    LocalStep(s, next, t);
  }

  lemma DecideCreateKeeps(fold: Fold, s: Db, t: TxId, op: Op, engine: Definition, id: nat, next: Db)
    requires Inv(s) && t in s.txs && s.txs[t] == WithEngine(op, engine)
    requires DoDecideCreate(fold, s, t, op, engine, id) == Some(next)
    ensures Inv(next)
  {
    hide Inv, WellFormed, DocumentRules, Print, Denotation;
    TxAt(s, t);
    LocalStep(s, next, t);
  }

  lemma EditEventsOk(updated: Task, read: Task, checked: Option<Definition>, roles: set<string>, shares: bool, active: Option<Definition>)
    requires updated.status != read.status ==>
      && checked.Some? && KnownName(checked.value, updated.status)
      && MoveAllowed(checked.value, read.status, updated.status, roles) && shares && active == checked
    ensures EventsOk(UpdateEvents(updated, read, checked), roles, shares, active)
    ensures Announced(Update(read, updated), UpdateEvents(updated, read, checked))
  {
    hide WellFormed, DocumentRules, Print, Denotation;
    var changed, events := ChangedFields(updated, read), UpdateEvents(updated, read, checked);
    assert updated.status != read.status ==> changed != [] by {
      assert updated.status != read.status ==> Status in changed;
    }
    if changed != [] { assert events[0] == TaskUpdated(updated, read, changed); }
    if updated.status != read.status { assert events[1] == TaskStatusChanged(updated, read.status, updated.status); }
  }

  lemma DecideEditKeeps(fold: Fold, s: Db, t: TxId, op: Op, checked: Option<Definition>, read: Task, next: Db)
    requires Inv(s) && t in s.txs && s.txs[t] == WithTask(op, checked, read)
    requires DoDecideEdit(fold, s, t, op, checked, read) == Some(next)
    ensures Inv(next)
  {
    hide Inv, WellFormed, DocumentRules, Print, Denotation;
    TxAt(s, t);
    if !op.Delete? {
      var updated := DecideEdit(fold, s, op, checked, read).value;
      EditEventsOk(updated, read, checked, op.roles, t in s.shared, Active(s));
    }
    LocalStep(s, next, t);
  }

  lemma NothingInstalled(s: Db)
    requires Inv(s) && s.documents == map[]
    ensures Active(s).None?
  {
    assert s.installed.Keys == {};
  }

  lemma CheckUsageKeeps(s: Db, t: TxId, op: Op, next: Db)
    requires Inv(s) && t in s.txs && s.txs[t] == Guarded(op) && DoCheckUsage(s, t, op) == Some(next)
    ensures Inv(next)
  {
    hide Inv, WellFormed, DocumentRules, Print, Denotation;
    TxAt(s, t);
    if op.PutWorkflow? {
      AcceptedObeysRules(op.document);
    } else {
      Seed.DefaultObeysRules();
      NothingInstalled(s);
    }
    LocalStep(s, next, t);
  }

  lemma PickVersionKeeps(s: Db, t: TxId, d: Definition, announce: bool)
    requires Inv(s) && t in s.txs && s.txs[t] == Cleared(d, announce)
    ensures Inv(DoPickVersion(s, t, d, announce))
  {
    hide WellFormed, DocumentRules, Print, Denotation;
    HighestIsLast(s.documents, s.installed);
    assert TxOk(s.txs[t], t in s.shared, s.exclusive == Some(t), Active(s), s.tasks, |s.installed| + 1);
    LocalStep(s, DoPickVersion(s, t, d, announce), t);
  }

  // ----- Commits -----

  lemma LogGrows(log: seq<Entry>, events: seq<Event>, roles: set<string>, installed: map<int, Definition>, shares: bool)
    requires LogOk(log, installed) && EventsOk(events, roles, shares, DefinitionAt(installed, |installed|))
    ensures LogOk(log + Entries(events, roles, |installed|), installed)
  {
    hide WellFormed, DocumentRules, Print, Denotation;
  }

  /** A committed task write keeps every task in the active definition. */
  lemma TaskCommitKeeps(s: Db, t: TxId, write: Write, events: seq<Event>, roles: set<string>, next: Db)
    requires Inv(s) && t in s.txs && s.txs[t] == Ready(write, events, roles) && !write.Install?
    requires DoCommit(s, t, write, events, roles) == Some(next)
    ensures Inv(next)
  {
    hide VersionsOk, LogOk, EventsOk, TxsOk, NoneStranded, Announced, WriteOk, StatusesKnown, Merge, KeyFree, RowsKeyed, LocksOk;
    hide WellFormed, DocumentRules, Print, Denotation;
    HighestIsLast(s.documents, s.installed);
    TxAt(s, t);
    LogGrows(s.log, events, roles, s.installed, t in s.shared);
    StatusesStay(s, t, write, next);
    LocksRelease(s, t, next);
    OthersKeep(s, t, next);
  }

  lemma ApplyTouchesTables(s: Db, write: Write)
    requires Apply(s, write).Some?
    ensures Apply(s, write).value.txs == s.txs
  {
  }

  lemma LocksRelease(s: Db, t: TxId, next: Db)
    requires LocksOk(s) && next.shared == s.shared - {t}
    requires next.exclusive == if s.exclusive == Some(t) then None else s.exclusive
    ensures LocksOk(next)
  {
  }

  lemma OthersKeep(s: Db, t: TxId, next: Db)
    requires LocksOk(s) && TxsOk(s) && next.installed == s.installed
    requires t !in s.shared ==> forall d :: StatusesKnown(s.tasks, d) ==> StatusesKnown(next.tasks, d)
    requires next.txs == s.txs - {t} && next.shared == s.shared - {t}
    requires next.exclusive == if s.exclusive == Some(t) then None else s.exclusive
    ensures TxsOk(next)
  {
    hide WellFormed, DocumentRules, Print, Denotation;
    forall u | u in next.txs
      ensures TxOk(next.txs[u], u in next.shared, next.exclusive == Some(u), Active(s), next.tasks, |s.installed| + 1)
    {
      assert TxOk(s.txs[u], u in s.shared, s.exclusive == Some(u), Active(s), s.tasks, |s.installed| + 1);
      OtherKeeps(s, t, u, next);
    }
  }

  /** Which statuses a task write can leave behind: those there were, and, only under a shared
      lock, one known to the active definition. */
  lemma StatusesStay(s: Db, t: TxId, write: Write, next: Db)
    requires NoneStranded(s) && RowsKeyed(s.tasks) && WriteOk(write, t in s.shared, s.exclusive == Some(t), Active(s), s.tasks, |s.installed| + 1)
    requires !write.Install? && Apply(s, write).Some? && next.tasks == Apply(s, write).value.tasks && next.installed == s.installed
    ensures NoneStranded(next) && RowsKeyed(next.tasks)
    ensures t !in s.shared ==> forall d :: StatusesKnown(s.tasks, d) ==> StatusesKnown(next.tasks, d)
  {
    hide WellFormed, DocumentRules, Print, Denotation;
    if Active(s).Some? {
      forall id | id in next.tasks ensures KnownName(Active(s).value, next.tasks[id].status) {
      }
    }
  }

  lemma OtherKeeps(s: Db, t: TxId, u: TxId, next: Db)
    requires LocksOk(s) && u in s.txs && u != t
    requires TxOk(s.txs[u], u in s.shared, s.exclusive == Some(u), Active(s), s.tasks, |s.installed| + 1)
    requires t !in s.shared ==> forall d :: StatusesKnown(s.tasks, d) ==> StatusesKnown(next.tasks, d)
    requires next.txs == s.txs - {t} && next.shared == s.shared - {t}
    requires next.exclusive == if s.exclusive == Some(t) then None else s.exclusive
    ensures TxOk(next.txs[u], u in next.shared, next.exclusive == Some(u), Active(s), next.tasks, |s.installed| + 1)
  {
    hide WellFormed, DocumentRules, Print, Denotation;
    if s.exclusive == Some(u) { assert t !in s.shared; }
  }

  lemma LegalStays(log: seq<Entry>, installed: map<int, Definition>, d: Definition)
    requires LogOk(log, installed) && |installed| + 1 !in installed
    ensures LogOk(log, installed[|installed| + 1 := d])
  {
    hide WellFormed, DocumentRules, Print, Denotation;
    var grown := installed[|installed| + 1 := d];
    forall i | 0 <= i < |log| ensures Legal(log[i].event, log[i].roles, DefinitionAt(grown, log[i].version)) {
      assert DefinitionAt(grown, log[i].version) == DefinitionAt(installed, log[i].version);
    }
  }

  lemma NextVersion<T>(m: map<int, T>, x: T)
    requires Numbered(m)
    ensures |m| + 1 !in m && |m[|m| + 1 := x]| == |m| + 1
    ensures Numbered(m[|m| + 1 := x])
  {
    var n := |m|;
    assert n + 1 !in m;
    var grown := m[n + 1 := x];
    assert grown.Keys == m.Keys + {n + 1};
    assert |grown.Keys| == n + 1;
    forall v ensures v in grown <==> 1 <= v <= n + 1 {
      assert v in grown <==> v in m || v == n + 1;
    }
  }

  lemma VersionsGrow(documents: map<int, JSON>, installed: map<int, Definition>, d: Definition)
    requires VersionsOk(documents, installed) && DocumentRules(d)
    ensures |installed| + 1 !in documents
    ensures |installed[|installed| + 1 := d]| == |installed| + 1
    ensures VersionsOk(documents[|installed| + 1 := Print(d)], installed[|installed| + 1 := d])
  {
    hide WellFormed, DocumentRules, Print, Denotation;
    NextVersion(installed, d);
  }

  /** What committing a definition does to the tables, under the exclusive lock it needs. */
  lemma InstallFacts(s: Db, t: TxId, write: Write, events: seq<Event>, roles: set<string>, next: Db)
    requires Inv(s) && t in s.txs && s.txs[t] == Ready(write, events, roles) && write.Install?
    requires DoCommit(s, t, write, events, roles) == Some(next)
    ensures s.exclusive == Some(t) && s.shared == {} && DocumentRules(write.definition) && StatusesKnown(s.tasks, write.definition)
    ensures EventsOk(events, roles, false, Active(s))
    ensures next.tasks == s.tasks && next.txs == s.txs - {t} && next.shared == {} && next.exclusive.None?
    ensures next.documents == s.documents[|s.installed| + 1 := Print(write.definition)]
    ensures next.installed == s.installed[|s.installed| + 1 := write.definition]
    ensures next.log == s.log + Entries(events, roles, |s.installed|)
  {
    hide VersionsOk, LogOk, EventsOk, TxsOk, NoneStranded, Announced, StatusesKnown, RowsKeyed, Active;
    hide WellFormed, DocumentRules, Print, Denotation, Entries, Highest;
    TxAt(s, t);
    HighestIsLast(s.documents, s.installed);
  }

  /** A committed definition: the exclusive lock means nothing else is in a guarded span. */
  lemma InstallCommitKeeps(s: Db, t: TxId, write: Write, events: seq<Event>, roles: set<string>, next: Db)
    requires Inv(s) && t in s.txs && s.txs[t] == Ready(write, events, roles) && write.Install?
    requires DoCommit(s, t, write, events, roles) == Some(next)
    ensures Inv(next) && Active(next) == Some(write.definition) && next.shared == {}
    ensures |next.installed| == |s.installed| + 1 && next.tasks == s.tasks
  {
    hide DoCommit, VersionsOk, LogOk, EventsOk, TxsOk, StatusesKnown, RowsKeyed, Entries;
    hide WellFormed, DocumentRules, Print, Denotation;
    InstallFacts(s, t, write, events, roles, next);
    VersionsGrow(s.documents, s.installed, write.definition);
    LogGrows(s.log, events, roles, s.installed, false);
    LegalStays(next.log, s.installed, write.definition);
    UnguardedTxsKeep(s, t, next);
  }

  lemma UnguardedTxsKeep(s: Db, t: TxId, next: Db)
    requires TxsOk(s) && s.exclusive == Some(t) && s.shared == {} && next.tasks == s.tasks
    requires next.txs == s.txs - {t} && next.shared == {} && next.exclusive.None?
    ensures TxsOk(next)
  {
    hide WellFormed, DocumentRules, Print, Denotation;
    forall u | u in next.txs
      ensures TxOk(next.txs[u], u in next.shared, next.exclusive == Some(u), Active(next), next.tasks, |next.installed| + 1)
    {
      assert TxOk(s.txs[u], u in s.shared, s.exclusive == Some(u), Active(s), s.tasks, |s.installed| + 1);
      UnguardedKeeps(s.txs[u], Active(s), Active(next), s.tasks, |s.installed| + 1, |next.installed| + 1);
    }
  }

  /** A transaction that holds no lock does not care which definition is active. */
  lemma UnguardedKeeps(tx: Tx, before: Option<Definition>, after: Option<Definition>, tasks: map<nat, Task>, was: int, now: int)
    requires TxOk(tx, false, false, before, tasks, was)
    ensures TxOk(tx, false, false, after, tasks, now)
  {
    hide WellFormed, DocumentRules, Print, Denotation;
  }

  // ----- Every run -----

  /** One step of any transaction keeps the invariant. */
  lemma StepKeeps(fold: Fold, s: Db, step: Step, next: Db)
    requires Inv(s) && Do(fold, s, step) == Some(next)
    ensures Inv(next)
  {
    hide DoAcquire, DoReadDefinition, DoReadTask, DoCheckUsage, DoDecideCreate, DoDecideEdit, DoPickVersion, DoCommit;
    hide VersionsOk, NoneStranded, LogOk, RowsKeyed, TxsOk;
    hide WellFormed, DocumentRules, Print, Denotation;
    var t := step.t;
    if step.Begin? || step.Abort? {
      LocalStep(s, next, t);
    } else {
      match (step, s.txs[t])
      case (Acquire(_), Started(op)) => AcquireKeeps(s, t, op, next);
      case (ReadDefinition(_), Guarded(op)) => ReadDefinitionKeeps(s, t, op, next);
      case (ReadTask(_), Started(op)) => ReadTaskKeeps(s, t, op, None, next);
      case (ReadTask(_), WithEngine(op, engine)) => ReadTaskKeeps(s, t, op, Some(engine), next);
      case (Decide(_, id), WithEngine(op, engine)) => DecideCreateKeeps(fold, s, t, op, engine, id, next);
      case (Decide(_, _), WithTask(op, checked, read)) => DecideEditKeeps(fold, s, t, op, checked, read, next);
      case (CheckUsage(_), Guarded(op)) => CheckUsageKeeps(s, t, op, next);
      case (PickVersion(_), Cleared(d, announce)) => PickVersionKeeps(s, t, d, announce);
      case (Commit(_), Ready(write, events, roles)) =>
        if write.Install? {
          InstallCommitKeeps(s, t, write, events, roles, next);
        } else {
          TaskCommitKeeps(s, t, write, events, roles, next);
        }
    }
  }

  lemma {:induction false} RunKeeps(fold: Fold, s: Db, steps: seq<Step>)
    requires Inv(s) && Run(fold, s, steps).Some?
    ensures Inv(Run(fold, s, steps).value)
    decreases |steps|
  {
    if steps != [] {
      var next := Do(fold, s, steps[0]).value;
      StepKeeps(fold, s, steps[0], next);
      RunKeeps(fold, next, steps[1..]);
    }
  }

  ghost predicate Reached(fold: Fold, s: Db) {
    exists steps :: Run(fold, Init, steps) == Some(s)
  }

  lemma ReachedInv(fold: Fold, s: Db)
    requires Reached(fold, s)
    ensures Inv(s)
  {
    var steps :| Run(fold, Init, steps) == Some(s);
    RunKeeps(fold, Init, steps);
  }

  // ----- What holds of every reachable state -----

  /** Anti-stranding: over every interleaving, every committed task's status is a state of the
      highest-version committed definition, and no task exists while no definition does. */
  lemma NoTaskIsStranded(fold: Fold, s: Db)
    requires Reached(fold, s)
    ensures s.documents == map[] ==> s.tasks == map[]
    ensures s.documents != map[] ==>
      var version := Highest(s.documents.Keys);
      && version in s.documents && WellFormed(s.documents[version])
      && forall id :: id in s.tasks ==> KnownName(Denotation(s.documents[version]), s.tasks[id].status)
  {
    ReachedInv(fold, s);
    if s.documents == map[] {
      assert s.installed.Keys == {};
    } else {
      ActiveReadsBack(s);
    }
  }

  /** Version history: versions are exactly 1..n, each reads back as what was installed, and a
      writer about to commit a version never meets it already taken. */
  lemma VersionHistory(fold: Fold, s: Db)
    requires Reached(fold, s)
    ensures forall v :: v in s.documents <==> 1 <= v <= |s.documents|
    ensures s.installed.Keys == s.documents.Keys
    ensures forall v :: v in s.documents ==> WellFormed(s.documents[v]) && Denotation(s.documents[v]) == s.installed[v]
    ensures forall t :: t in s.txs && s.txs[t].Ready? && s.txs[t].write.Install? ==>
      s.txs[t].write.version == |s.documents| + 1 && s.txs[t].write.version !in s.documents
  {
    ReachedInv(fold, s);
    assert |s.documents.Keys| == |s.installed.Keys|;
    forall v | v in s.documents ensures WellFormed(s.documents[v]) && Denotation(s.documents[v]) == s.installed[v] {
      RoundTrip(s.installed[v]);
    }
    forall t | t in s.txs && s.txs[t].Ready? && s.txs[t].write.Install?
      ensures s.txs[t].write.version == |s.documents| + 1
    {
      assert TxOk(s.txs[t], t in s.shared, s.exclusive == Some(t), Active(s), s.tasks, |s.installed| + 1);
    }
  }

  /** Enforcement is linearised: each committed `TaskStatusChanged` event names a transition of the
      definition active at its commit, with its roles guard met by the actor; each committed create
      landed in an entry state of it; each `TaskCompleted` event names a state that completes. The
      row's own move at that commit is another matter: see `Overtakes`. */
  lemma EnforcementIsLinearised(fold: Fold, s: Db, i: nat)
    requires Reached(fold, s) && i < |s.log|
    ensures
      var entry := s.log[i];
      var active := DefinitionAt(s.installed, entry.version);
      && (entry.event.TaskStatusChanged? ==>
            && active.Some? && entry.event.fromStatus != entry.event.toStatus
            && entry.event.task.status == entry.event.toStatus
            && (entry.event.fromStatus, entry.event.toStatus) in active.value.transitions
            && CheckRole(active.value.transitions[(entry.event.fromStatus, entry.event.toStatus)], entry.roles).None?)
      && (entry.event.TaskCreated? ==>
            active.Some? && ValidDefinition(active.value) && entry.event.task.status in EntryStates(active.value))
      && (entry.event.TaskCompleted? ==>
            active.Some? && KnownName(active.value, entry.event.task.status) && Completes(active.value, entry.event.task.status))
  {
    hide WellFormed, DocumentRules, Print, Denotation;
    ReachedInv(fold, s);
    assert Legal(s.log[i].event, s.log[i].roles, DefinitionAt(s.installed, s.log[i].version));
  }

  /** The move check of a guarded write never meets a `from` status its definition does not know,
      so the raw `ValueError` of `transition_between` cannot escape. */
  lemma MoveCheckIsTotal(fold: Fold, s: Db, t: TxId, toStatus: string, context: Context)
    requires Reached(fold, s) && t in s.txs && s.txs[t].WithTask? && s.txs[t].checked.Some?
    ensures KnownName(s.txs[t].checked.value, s.txs[t].read.status)
    ensures CheckMove(s.txs[t].checked.value, s.txs[t].read.status, toStatus, context)
         != Some(RawUnknownState(s.txs[t].read.status))
  {
    hide WellFormed, DocumentRules, Print, Denotation;
    ReachedInv(fold, s);
    assert TxOk(s.txs[t], t in s.shared, s.exclusive == Some(t), Active(s), s.tasks, |s.installed| + 1);
    KnownFromIsNotRaw(s.txs[t].checked.value, s.txs[t].read.status, toStatus, context);
  }

  lemma KnownFromIsNotRaw(d: Definition, fromStatus: string, toStatus: string, context: Context)
    requires KnownName(d, fromStatus)
    ensures CheckMove(d, fromStatus, toStatus, context) != Some(RawUnknownState(fromStatus))
  {
  }

  ghost predicate LoggedSince(s: Db, next: Db, e: Event) {
    exists i :: |s.log| <= i < |next.log| && next.log[i].event == e
  }

  /** The step commits a status write over a row whose status is no longer the one it read. */
  predicate Overtakes(s: Db, step: Step) {
    && step.Commit? && step.t in s.txs && s.txs[step.t].Ready? && s.txs[step.t].write.Update?
    && var write := s.txs[step.t].write;
       write.updated.status != write.read.status && write.read.id in s.tasks && s.tasks[write.read.id].status != write.read.status
  }

  /** What the step `s` to `next` must have logged about this row. */
  ghost predicate Announces(s: Db, step: Step, next: Db, id: nat) {
    && (id !in s.tasks && id in next.tasks ==> LoggedSince(s, next, TaskCreated(next.tasks[id])))
    && (id in s.tasks && id in next.tasks && s.tasks[id].status != next.tasks[id].status ==>
          exists task: Task, from: string ::
            && task.id == id && (from == s.tasks[id].status <==> !Overtakes(s, step))
            && LoggedSince(s, next, TaskStatusChanged(task, from, next.tasks[id].status)))
    && (id in s.tasks && id in next.tasks && ChangedFields(next.tasks[id], s.tasks[id]) != [] ==>
          exists task: Task, previous: Task, changed: seq<Field> ::
            task.id == id && Carries(changed, task, s.tasks[id], next.tasks[id]) && LoggedSince(s, next, TaskUpdated(task, previous, changed)))
    && (id in s.tasks && id !in next.tasks ==>
          exists task: Task :: task.id == id && LoggedSince(s, next, TaskDeleted(task)))
  }

  /** The update names every column that moved, and its task holds the new values. */
  predicate Carries(changed: seq<Field>, task: Task, before: Task, after: Task) {
    && (before.title != after.title ==> Title in changed && task.title == after.title)
    && (before.description != after.description ==> Description in changed && task.description == after.description)
    && (before.status != after.status ==> Status in changed && task.status == after.status)
    && (before.priority != after.priority ==> Priority in changed && task.priority == after.priority)
  }

  lemma MergeMoves(current: Task, read: Task, updated: Task)
    ensures Merge(current, read, updated).id == current.id
    ensures Merge(current, read, updated).status == if updated.status != read.status then updated.status else current.status
  {
  }

  lemma MergeCarries(current: Task, read: Task, updated: Task)
    ensures Carries(ChangedFields(updated, read), updated, current, Merge(current, read, updated))
    ensures ChangedFields(Merge(current, read, updated), current) != [] ==> ChangedFields(updated, read) != []
  {
  }

  /** No committed change goes unannounced: the step that creates, moves, edits or removes a task
      commits the event that says so, an edit's naming every column that moved with its new value
      and a move's naming the status the row had unless another write overtook it; and the log is
      never rewritten. */
  lemma ChangesAreAnnounced(fold: Fold, s: Db, step: Step, next: Db, id: nat)
    requires Reached(fold, s) && Do(fold, s, step) == Some(next)
    ensures s.log <= next.log
    ensures Announces(s, step, next, id)
  {
    hide WellFormed, DocumentRules, Print, Denotation;
    ReachedInv(fold, s);
    if step.Commit? {
      var t := step.t;
      var tx := s.txs[t];
      assert TxOk(tx, t in s.shared, s.exclusive == Some(t), Active(s), s.tasks, |s.installed| + 1);
      CommitAnnounces(s, t, tx.write, tx.events, tx.roles, next, id);
    } else {
      OnlyCommitsWrite(fold, s, step, next);
    }
  }

  /** The step leaves the tables, the definitions and the log as they are. */
  ghost predicate WritesNothing(s: Db, next: Db) {
    next.tasks == s.tasks && next.log == s.log && next.documents == s.documents && next.installed == s.installed
  }

  lemma ReadsWriteNothing(s: Db, t: TxId, op: Op, checked: Option<Definition>)
    ensures DoAcquire(s, t, op).Some? ==> WritesNothing(s, DoAcquire(s, t, op).value)
    ensures DoReadDefinition(s, t, op).Some? ==> WritesNothing(s, DoReadDefinition(s, t, op).value)
    ensures DoReadTask(s, t, op, checked).Some? ==> WritesNothing(s, DoReadTask(s, t, op, checked).value)
    ensures DoCheckUsage(s, t, op).Some? ==> WritesNothing(s, DoCheckUsage(s, t, op).value)
  {
    hide WellFormed, Denotation, Highest, StatusesKnown, Seed.DefaultDefinition;
  }

  lemma DecisionsWriteNothing(fold: Fold, s: Db, t: TxId, op: Op, engine: Definition, id: nat, checked: Option<Definition>, read: Task)
    ensures DoDecideCreate(fold, s, t, op, engine, id).Some? ==> WritesNothing(s, DoDecideCreate(fold, s, t, op, engine, id).value)
    ensures DoDecideEdit(fold, s, t, op, checked, read).Some? ==> WritesNothing(s, DoDecideEdit(fold, s, t, op, checked, read).value)
  {
    hide DecideCreate, DecideEdit, UpdateEvents, ValidDefinition;
  }

  lemma OnlyCommitsWrite(fold: Fold, s: Db, step: Step, next: Db)
    requires Do(fold, s, step) == Some(next) && !step.Commit?
    ensures WritesNothing(s, next)
  {
    hide DoAcquire, DoReadDefinition, DoReadTask, DoCheckUsage, DoDecideCreate, DoDecideEdit;
    hide WellFormed, DocumentRules, Print, Denotation, Highest;
    var t := step.t;
    if !step.Begin? {
      match s.txs[t]
      case Started(op) => ReadsWriteNothing(s, t, op, None);
      case Guarded(op) => ReadsWriteNothing(s, t, op, None);
      case WithEngine(op, engine) =>
        ReadsWriteNothing(s, t, op, Some(engine));
        if step.Decide? { DecisionsWriteNothing(fold, s, t, op, engine, step.id, None, Task(0, "", "", None, "", 0)); }
      case WithTask(op, checked, read) =>
        DecisionsWriteNothing(fold, s, t, op, Definition([], map[]), 0, checked, read);
      case _ =>
    }
  }

  lemma NeedsTx(fold: Fold, s: Db, step: Step, next: Db)
    requires Do(fold, s, step) == Some(next) && !step.Begin?
    ensures step.t in s.txs
  {
  }

  lemma Logged(s: Db, next: Db, events: seq<Event>, roles: set<string>, version: int, e: Event)
    requires next.log == s.log + Entries(events, roles, version) && e in events
    ensures LoggedSince(s, next, e)
  {
    var i :| 0 <= i < |events| && events[i] == e;
    assert next.log[|s.log| + i].event == e;
  }

  lemma CommitAnnounces(s: Db, t: TxId, write: Write, events: seq<Event>, roles: set<string>, next: Db, id: nat)
    requires RowsKeyed(s.tasks) && Announced(write, events) && (write.Update? ==> write.read.id == write.updated.id)
    requires t in s.txs && s.txs[t] == Ready(write, events, roles) && DoCommit(s, t, write, events, roles) == Some(next)
    ensures s.log <= next.log
    ensures Announces(s, Commit(t), next, id)
  {
    hide WellFormed, DocumentRules, Print, Denotation, ChangedFields, Merge, KeyFree, Highest, Entries, Carries, LoggedSince;
    var version := Highest(s.documents.Keys);
    if id in s.tasks { NothingMoved(s.tasks[id]); }
    match write
    case Insert(task) =>
      Logged(s, next, events, roles, version, TaskCreated(task));
    case Update(read, updated) =>
      MergeMoves(s.tasks[read.id], read, updated);
      MergeCarries(s.tasks[read.id], read, updated);
      if ChangedFields(updated, read) != [] {
        Logged(s, next, events, roles, version, TaskUpdated(updated, read, ChangedFields(updated, read)));
      }
      if updated.status != read.status {
        Logged(s, next, events, roles, version, TaskStatusChanged(updated, read.status, updated.status));
      }
    case Remove(gone) =>
      var e :| e in events && e.TaskDeleted? && e.task.id == gone;
      Logged(s, next, events, roles, version, e);
      assert LoggedSince(s, next, TaskDeleted(e.task));
    case Install(_, _) =>
  }

  lemma NothingMoved(before: Task)
    ensures ChangedFields(before, before) == []
  {
  }
}
