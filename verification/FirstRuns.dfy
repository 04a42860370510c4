/** The first runs of an installation: a definition put into the empty store, and a first task. */
module FirstRuns {
  import opened Wrappers
  import opened Text
  import opened Definitions
  import opened Documents
  import opened DocumentLaws
  import opened Engine
  import opened Tasks
  import opened GuardProtocol
  import opened GuardSafety
  import opened KeyDrift
  import opened SerialAgreement
  import opened WorkflowStores

  lemma ReachedOn(fold: Fold, s: Db, steps: seq<Step>)
    requires Reached(fold, s) && Run(fold, s, steps).Some?
    ensures Reached(fold, Run(fold, s, steps).value)
  {
    hide Run;
    var before :| Run(fold, Init, before) == Some(s);
    RunConcat(fold, Init, before, s, steps);
  }

  /** The first definition ever put: it is the one in force afterwards. */
  lemma FirstInstall(fold: Fold, x: TxId, d: Definition)
    requires DocumentRules(d)
    ensures
      var end := Run(fold, Init, InstallSteps(x, PutWorkflow(Print(d))));
      && end.Some? && Current(end.value, d) && end.value.tasks == map[] && end.value.txs == map[]
      && end.value.shared == {} && end.value.exclusive.None? && end.value.minted == {} && Active(end.value) == Some(d)
  {
    hide Run, DocumentRules, Print, Denotation, InstallSteps, WellFormed, Inv, Stranded, Installed;
    RoundTrip(d);
    InitIsOk();
    NoneToStrand(d);
    PutAlone(fold, Init, x, Print(d));
    InstalledFirst(d, true);
  }

  lemma NoneToStrand(d: Definition)
    ensures Stranded(Init.tasks, d) == map[]
  {
    hide KnownName;
    StrandedExactly(Init.tasks, d);
  }

  // ----- A first task -----

  function CreateSteps(x: TxId, op: Op, id: nat): seq<Step> {
    [Begin(x, op), Acquire(x), ReadDefinition(x)] + [Decide(x, id)] + [Commit(x)]
  }

  /** Committing an insert undisturbed leaves everything else as it was. */
  lemma CommitInsert(fold: Fold, s: Db, x: TxId, task: Task)
    requires Quiet(s, x) && task.id !in s.tasks && KeyFree(s.tasks, task.id, task.titleKey)
    ensures
      var end := Do(fold, With(s, x, Ready(Insert(task), [TaskCreated(task)], {}), true), Commit(x));
      && end.Some? && end.value.tasks == s.tasks[task.id := task] && end.value.txs == s.txs && end.value.shared == s.shared
      && end.value.exclusive == s.exclusive && end.value.documents == s.documents && end.value.installed == s.installed
      && end.value.minted == s.minted
  {
    hide Highest, Entries, KeyFree;
    var h := With(s, x, Ready(Insert(task), [TaskCreated(task)], {}), true);
    assert h.txs - {x} == s.txs && h.shared - {x} == s.shared;
  }

  /** A create alone, with the whole state it leaves. */
  lemma CreateLeaves(fold: Fold, s: Db, x: TxId, d: Definition, op: Op, id: nat, task: Task)
    requires Quiet(s, x) && Current(s, d) && ValidDefinition(d) && op.Create? && id !in s.minted && id !in s.tasks
    requires DecideCreate(fold, s, op, d, id) == Some(task) && task.id == id && KeyFree(s.tasks, id, task.titleKey)
    ensures
      var end := Run(fold, s, CreateSteps(x, op, id));
      && end.Some? && end.value.tasks == s.tasks[id := task] && end.value.txs == s.txs && end.value.shared == s.shared
      && end.value.exclusive == s.exclusive && end.value.documents == s.documents && end.value.installed == s.installed
  {
    hide Do, Run, Current, DecideCreate, KeyFree;
    var start := [Begin(x, op), Acquire(x), ReadDefinition(x)];
    GuardedStart(fold, s, x, op, d);
    RunLast(fold, s, start, Decide(x, id));
    DecideCreateAlone(fold, s, x, d, op, id);
    RunLast(fold, s, start + [Decide(x, id)], Commit(x));
    CommitInsert(fold, s.(minted := s.minted + {id}), x, task);
  }

  /** The operations that install a definition and create one task in an entry state of it. */
  function Opening(x: TxId, d: Definition, title: string, status: string): seq<Step> {
    InstallSteps(x, PutWorkflow(Print(d))) + CreateSteps(x, Create(title, None, Some(status), 0), 0)
  }

  function FirstRow(fold: Fold, title: string, status: string): Task {
    Task(0, Strip(title), NormalKey(fold, title), None, status, 0)
  }

  /** An entry state without a limit takes a first task. */
  lemma FirstIsAdmitted(fold: Fold, s: Db, d: Definition, title: string, status: string)
    requires ValidDefinition(d) && status in EntryStates(d) && KnownName(d, status)
    requires MetaOf(FindState(d.states, status).meta, WIP_LIMIT_META_KEY).Null? && NormalKey(fold, title) != ""
    ensures DecideCreate(fold, s, Create(title, None, Some(status), 0), d, 0) == Some(FirstRow(fold, title, status))
  {
    hide EntryStates, Occupancy, FindState;
  }

  /** From nothing: any definition with an unlimited entry state, and one task in it. */
  lemma OpeningRuns(fold: Fold, x: TxId, d: Definition, title: string, status: string)
    requires DocumentRules(d) && status in EntryStates(d) && KnownName(d, status) && NormalKey(fold, title) != ""
    requires MetaOf(FindState(d.states, status).meta, WIP_LIMIT_META_KEY).Null?
    ensures
      var end := Run(fold, Init, Opening(x, d, title, status));
      && end.Some? && Reached(fold, end.value) && Current(end.value, d) && Active(end.value) == Some(d)
      && end.value.tasks == map[0 := FirstRow(fold, title, status)] && end.value.txs == map[] && end.value.shared == {}
      && end.value.exclusive.None?
  {
    hide Do, Run, DocumentRules, Print, Denotation, WellFormed, InstallSteps, CreateSteps, EntryStates, Highest, DecideCreate;
    FirstInstall(fold, x, d);
    var s := Run(fold, Init, InstallSteps(x, PutWorkflow(Print(d)))).value;
    RulesAreValid(d);
    FirstIsAdmitted(fold, s, d, title, status);
    CreateLeaves(fold, s, x, d, Create(title, None, Some(status), 0), 0, FirstRow(fold, title, status));
    RunConcat(fold, Init, InstallSteps(x, PutWorkflow(Print(d))), s, CreateSteps(x, Create(title, None, Some(status), 0), 0));
  }

  lemma RulesAreValid(d: Definition)
    requires DocumentRules(d)
    ensures ValidDefinition(d)
  {
  }
}
