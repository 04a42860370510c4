/** The workflow guard as a distributed protocol: any number of concurrent transactions over the
    definition table, the task table and the outbox, coordinated by one shared/exclusive advisory
    lock. Every read sees what is committed at that moment (READ COMMITTED); a lock is released
    with the commit or the rollback that ends its transaction; `Abort` is a refusal, a rollback or
    a crash, at any point. */
module GuardProtocol {
  import opened Wrappers
  import opened Json
  import opened Definitions
  import opened Documents
  import opened Engine
  import opened Tasks
  import Seed

  type TxId = nat

  datatype Op =
    | Create(title: string, description: Option<string>, status: Option<string>, priority: int)
    | Replace(id: nat, title: string, description: Option<string>, status: Option<string>, priority: int, roles: set<string>)
    | PatchTask(id: nat, patch: Patch, roles: set<string>)
    | Delete(id: nat)
    | PutWorkflow(document: JSON)
    | SeedWorkflow

  datatype Write =
    | Insert(task: Task)
    | Update(read: Task, updated: Task)
    | Remove(id: nat)
    | Install(version: int, definition: Definition)

  /** Where a transaction stands. */
  datatype Tx =
    | Started(op: Op)
    | Guarded(op: Op)                                                   // holds the advisory lock
    | WithEngine(op: Op, engine: Definition)                            // has read the definition
    | WithTask(op: Op, checked: Option<Definition>, read: Task)         // has read the task row
    | Cleared(definition: Definition, announce: bool)                   // strand check or emptiness check passed
    | Ready(write: Write, events: seq<Event>, roles: set<string>)       // about to commit

  /** A committed event, with the actor's roles and the version active at its commit. */
  datatype Entry = Entry(event: Event, roles: set<string>, version: int)

  datatype Db = Db(
    documents: map<int, JSON>,        // workflow_definitions, by version
    installed: map<int, Definition>,  // what each version was installed as; no code reads it
    tasks: map<nat, Task>,
    shared: set<TxId>,
    exclusive: Option<TxId>,
    txs: map<TxId, Tx>,
    minted: set<nat>,                 // task ids handed out so far
    log: seq<Entry>)                  // committed events, in commit order

  const Init := Db(map[], map[], map[], {}, None, map[], {}, [])

  datatype Step =
    | Begin(t: TxId, op: Op)
    | Acquire(t: TxId)
    | ReadDefinition(t: TxId)
    | ReadTask(t: TxId)
    | Decide(t: TxId, id: nat)
    | CheckUsage(t: TxId)
    | PickVersion(t: TxId)
    | Commit(t: TxId)
    | Abort(t: TxId)

  // ----- Reads -----

  /** `highest or 0`. */
  ghost function Highest(versions: set<int>): int {
    if exists v :: IsMax(v, versions) then (var v :| IsMax(v, versions); v) else 0
  }

  ghost predicate IsMax(v: int, versions: set<int>) {
    v in versions && forall u :: u in versions ==> u <= v
  }

  /** Which operations take the guard, and how. A patch without `status`, and a delete, do not. */
  predicate TakesShared(op: Op) {
    op.Create? || op.Replace? || (op.PatchTask? && op.patch.status.Some?)
  }

  predicate TakesExclusive(op: Op) {
    op.PutWorkflow? || op.SeedWorkflow?
  }

  predicate NamesTask(op: Op) {
    op.Replace? || op.PatchTask? || op.Delete?
  }

  // ----- Steps -----

  function Move(s: Db, t: TxId, tx: Tx): Db {
    s.(txs := s.txs[t := tx])
  }

  function Finish(s: Db, t: TxId): Db {
    s.(txs := s.txs - {t}, shared := s.shared - {t}, exclusive := if s.exclusive == Some(t) then None else s.exclusive)
  }

  /** The insert a create decides on, or nothing when it is refused. */
  function DecideCreate(fold: Fold, s: Db, op: Op, engine: Definition, id: nat): Option<Task>
    requires op.Create? && ValidDefinition(engine)
  {
    var context := Context({}, Occupancy(s.tasks, engine, None, op.status));
    match ResolveEntry(engine, op.status, context)
    case Err(_) => None
    case Ok(status) => FromInput(fold, id, op.title, op.description, status, op.priority)
  }

  /** The status an edit asks for, when it consults the engine. */
  function Target(op: Op, engine: Definition, read: Task): string
    requires ValidDefinition(engine) && (op.Replace? || op.PatchTask?)
  {
    match op
    case Replace(_, _, _, status, _, _) => Or(status, DefaultEntry(engine))
    case PatchTask(_, patch, _) => Or(patch.status, read.status)
  }

  /** The edited row a replace or patch decides on, or nothing when it is refused. */
  function DecideEdit(fold: Fold, s: Db, op: Op, checked: Option<Definition>, read: Task): (r: Option<Task>)
    requires (op.Replace? || op.PatchTask?) && checked.Some? == TakesShared(op)
    requires checked.Some? ==> ValidDefinition(checked.value)
    ensures r.Some? ==> r.value.id == read.id
    ensures r.Some? && r.value.status != read.status ==>
      && checked.Some? && KnownName(checked.value, r.value.status)
      && (KnownName(checked.value, read.status) ==> MoveAllowed(checked.value, read.status, r.value.status, op.roles))
  {
    if checked.Some? && EditRefusal(s, op, checked.value, read).Some? then None
    else
      match op
      case Replace(_, title, description, _, priority, _) =>
        ApplyReplace(fold, read, title, description, Target(op, checked.value, read), priority)
      case PatchTask(_, patch, _) => ApplyPatch(fold, read, patch)
  }

  /** A status change the engine lets through: a defined transition whose roles guard is met. */
  predicate MoveAllowed(d: Definition, fromStatus: string, toStatus: string, roles: set<string>) {
    (fromStatus, toStatus) in d.transitions && CheckRole(d.transitions[(fromStatus, toStatus)], roles).None?
  }

  function EditRefusal(s: Db, op: Op, engine: Definition, read: Task): Option<Refusal>
    requires ValidDefinition(engine) && (op.Replace? || op.PatchTask?)
  {
    var target := Target(op, engine, read);
    CheckMove(engine, read.status, target,
              Context(op.roles, Occupancy(s.tasks, engine, Some(read.status), Some(target))))
  }

  ghost function DoAcquire(s: Db, t: TxId, op: Op): Option<Db> {
    if TakesShared(op) && s.exclusive.None? then
      Some(Move(s, t, Guarded(op)).(shared := s.shared + {t}))
    else if TakesExclusive(op) && s.exclusive.None? && s.shared == {} && (op.PutWorkflow? ==> WellFormed(op.document)) then
      Some(Move(s, t, Guarded(op)).(exclusive := Some(t)))
    else None
  }

  ghost function DoReadDefinition(s: Db, t: TxId, op: Op): Option<Db> {
    var version := Highest(s.documents.Keys);
    if TakesShared(op) && version in s.documents && WellFormed(s.documents[version]) then
      Some(Move(s, t, WithEngine(op, Denotation(s.documents[version]))))
    else None
  }

  function DoReadTask(s: Db, t: TxId, op: Op, checked: Option<Definition>): Option<Db> {
    if NamesTask(op) && op.id in s.tasks then Some(Move(s, t, WithTask(op, checked, s.tasks[op.id]))) else None
  }

  ghost function DoDecideCreate(fold: Fold, s: Db, t: TxId, op: Op, engine: Definition, id: nat): Option<Db> {
    if !op.Create? || !ValidDefinition(engine) || id in s.minted then None
    else
      match DecideCreate(fold, s, op, engine, id)
      case None => None
      case Some(task) =>
        Some(Move(s, t, Ready(Insert(task), [TaskCreated(task)], {})).(minted := s.minted + {id}))
  }

  ghost function DoDecideEdit(fold: Fold, s: Db, t: TxId, op: Op, checked: Option<Definition>, read: Task): Option<Db> {
    if op.Delete? then Some(Move(s, t, Ready(Remove(op.id), [TaskDeleted(read)], {})))
    else if !(op.Replace? || op.PatchTask?) || checked.Some? != TakesShared(op) then None
    else if checked.Some? && !ValidDefinition(checked.value) then None
    else
      match DecideEdit(fold, s, op, checked, read)
      case None => None
      case Some(updated) =>
        var events := UpdateEvents(updated, read, checked);
        if events == [] then None else Some(Move(s, t, Ready(Update(read, updated), events, op.roles)))
  }

  ghost function DoCheckUsage(s: Db, t: TxId, op: Op): Option<Db> {
    match op
    case PutWorkflow(document) =>
      if WellFormed(document) && StatusesKnown(s.tasks, Denotation(document)) then
        Some(Move(s, t, Cleared(Denotation(document), true)))
      else None
    case SeedWorkflow =>
      if s.documents == map[] then Some(Move(s, t, Cleared(Seed.DefaultDefinition(), false))) else None
    case _ => None
  }

  ghost predicate StatusesKnown(tasks: map<nat, Task>, d: Definition) {
    forall id :: id in tasks ==> KnownName(d, tasks[id].status)
  }

  ghost function DoPickVersion(s: Db, t: TxId, d: Definition, announce: bool): Db {
    var version := Highest(s.documents.Keys) + 1;
    Move(s, t, Ready(Install(version, d), if announce then [WorkflowUpdated(version, Names(d.states))] else [], {}))
  }

  /** The database's answer to the write: the new tables, or a constraint violation. */
  function Apply(s: Db, write: Write): Option<Db> {
    match write
    case Insert(task) =>
      if task.id !in s.tasks && KeyFree(s.tasks, task.id, task.titleKey) then Some(s.(tasks := s.tasks[task.id := task])) else None
    case Update(read, updated) =>
      if read.id !in s.tasks then None else
        var merged := Merge(s.tasks[read.id], read, updated);
        if KeyFree(s.tasks, read.id, merged.titleKey) then Some(s.(tasks := s.tasks[read.id := merged])) else None
    case Remove(id) => Some(s.(tasks := s.tasks - {id}))
    case Install(version, d) =>
      if version in s.documents then None
      else Some(s.(documents := s.documents[version := Print(d)], installed := s.installed[version := d]))
  }

  function Entries(events: seq<Event>, roles: set<string>, version: int): seq<Entry> {
    seq(|events|, i requires 0 <= i < |events| => Entry(events[i], roles, version))
  }

  ghost function DoCommit(s: Db, t: TxId, write: Write, events: seq<Event>, roles: set<string>): Option<Db> {
    match Apply(s, write)
    case None => None
    case Some(applied) =>
      Some(Finish(applied.(log := s.log + Entries(events, roles, Highest(s.documents.Keys))), t))
  }

  /** One step of one transaction; nothing when it is not enabled. */
  ghost function Do(fold: Fold, s: Db, step: Step): Option<Db> {
    if step.Begin? then (if step.t in s.txs then None else Some(Move(s, step.t, Started(step.op))))
    else if step.t !in s.txs then None
    else
      match (step, s.txs[step.t])
      case (Acquire(t), Started(op)) => DoAcquire(s, t, op)
      case (ReadDefinition(t), Guarded(op)) => DoReadDefinition(s, t, op)
      case (ReadTask(t), Started(op)) => if TakesShared(op) then None else DoReadTask(s, t, op, None)
      case (ReadTask(t), WithEngine(op, engine)) => DoReadTask(s, t, op, Some(engine))
      case (Decide(t, id), WithEngine(op, engine)) => DoDecideCreate(fold, s, t, op, engine, id)
      case (Decide(t, _), WithTask(op, checked, read)) => DoDecideEdit(fold, s, t, op, checked, read)
      case (CheckUsage(t), Guarded(op)) => DoCheckUsage(s, t, op)
      case (PickVersion(t), Cleared(d, announce)) => Some(DoPickVersion(s, t, d, announce))
      case (Commit(t), Ready(write, events, roles)) => DoCommit(s, t, write, events, roles)
      case (Abort(t), _) => Some(Finish(s, t))
      case _ => None
  }

  ghost function Run(fold: Fold, s: Db, steps: seq<Step>): Option<Db>
    decreases |steps|
  {
    if steps == [] then Some(s)
    else
      match Do(fold, s, steps[0])
      case None => None
      case Some(next) => Run(fold, next, steps[1..])
  }
}
