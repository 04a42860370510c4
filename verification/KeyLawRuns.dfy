/** Which runs of the guard protocol keep `title_key == normalize(title)`. One step breaks it, and
    exactly that one: committing a rename that keeps the key over a row whose key has moved. */
module KeyLawRuns {
  import opened Wrappers
  import opened Text
  import opened Definitions
  import opened Documents
  import opened Engine
  import opened Tasks
  import opened GuardProtocol
  import opened GuardSafety
  import opened KeyDrift
  import opened SerialAgreement
  import opened Store
  import opened StoreLaws
  import opened FirstRuns
  import Seed

  /** The rows a transaction holds or is about to write obey the law. */
  predicate TxLawful(fold: Fold, tx: Tx) {
    match tx
    case WithTask(_, _, read) => KeyLaw(fold, read)
    case Ready(Insert(task), _, _) => KeyLaw(fold, task)
    case Ready(Update(read, updated), _, _) => KeyLaw(fold, read) && KeyLaw(fold, updated)
    case _ => true
  }

  predicate RowsLawful(fold: Fold, tasks: map<nat, Task>) {
    forall id :: id in tasks ==> KeyLaw(fold, tasks[id])
  }

  predicate TxsLawful(fold: Fold, txs: map<TxId, Tx>) {
    forall t :: t in txs ==> TxLawful(fold, txs[t])
  }

  predicate KeysLawful(fold: Fold, s: Db) {
    RowsLawful(fold, s.tasks) && TxsLawful(fold, s.txs)
  }

  /** A rename that keeps the key: letter case only. */
  predicate Recases(tx: Tx) {
    tx.Ready? && tx.write.Update?
    && tx.write.updated.title != tx.write.read.title && tx.write.updated.titleKey == tx.write.read.titleKey
  }

  /** The step commits a same-key rename over a row whose key is no longer the one it read. */
  predicate Splits(s: Db, step: Step) {
    && step.Commit? && step.t in s.txs && Recases(s.txs[step.t])
    && var read := s.txs[step.t].write.read;
       read.id in s.tasks && s.tasks[read.id].titleKey != read.titleKey
  }

  // ----- One step -----

  lemma DecisionIsLawful(fold: Fold, s: Db, op: Op, checked: Option<Definition>, read: Task)
    requires KeyLaw(fold, read) && (op.Replace? || op.PatchTask?) && checked.Some? == TakesShared(op)
    requires checked.Some? ==> ValidDefinition(checked.value)
    ensures DecideEdit(fold, s, op, checked, read).Some? ==> KeyLaw(fold, DecideEdit(fold, s, op, checked, read).value)
  {
    hide EditRefusal, KeyLaw;
  }

  lemma CreateIsLawful(fold: Fold, s: Db, op: Op, engine: Definition, id: nat)
    requires op.Create? && ValidDefinition(engine)
    ensures DecideCreate(fold, s, op, engine, id).Some? ==> KeyLaw(fold, DecideCreate(fold, s, op, engine, id).value)
  {
    hide KeyLaw;
  }

  lemma DecideTxLawful(fold: Fold, s: Db, t: TxId, id: nat, next: Db)
    requires t in s.txs && TxLawful(fold, s.txs[t]) && Do(fold, s, Decide(t, id)) == Some(next)
    ensures next.tasks == s.tasks && next.txs == s.txs[t := next.txs[t]] && t in next.txs && TxLawful(fold, next.txs[t])
  {
    hide DecideCreate, DecideEdit, KeyLaw, UpdateEvents, ValidDefinition;
    match s.txs[t]
    case WithEngine(op, engine) => CreateIsLawful(fold, s, op, engine, id);
    case WithTask(op, checked, read) => if !op.Delete? { DecisionIsLawful(fold, s, op, checked, read); }
  }

  /** Steps that neither decide nor commit take a row only by reading it. */
  lemma OtherTxLawful(fold: Fold, s: Db, step: Step, next: Db)
    requires KeysLawful(fold, s) && Do(fold, s, step) == Some(next) && !step.Decide? && !step.Commit?
    ensures next.tasks == s.tasks && TxsLawful(fold, next.txs)
  {
    hide WellFormed, DocumentRules, Print, Denotation, Highest, StatusesKnown, Seed.DefaultDefinition, KeyLaw;
  }

  lemma CommitTables(fold: Fold, s: Db, t: TxId, next: Db)
    requires t in s.txs && Do(fold, s, Commit(t)) == Some(next)
    ensures s.txs[t].Ready? && next.txs == s.txs - {t} && Apply(s, s.txs[t].write).Some? && next.tasks == Apply(s, s.txs[t].write).value.tasks
  {
    hide Apply, Highest, Entries;
    if s.txs[t].Ready? && Apply(s, s.txs[t].write).Some? { ApplyTouchesTables(s, s.txs[t].write); }
  }

  lemma CommitLawful(fold: Fold, s: Db, t: TxId, next: Db)
    requires KeysLawful(fold, s) && t in s.txs && Do(fold, s, Commit(t)) == Some(next)
    ensures KeysLawful(fold, next) <==> !Splits(s, Commit(t))
  {
    hide Do, KeyLaw, KeyFree, Merge, Print;
    CommitTables(fold, s, t, next);
    assert TxLawful(fold, s.txs[t]);
    assert TxsLawful(fold, next.txs);
    match s.txs[t].write
    case Update(read, updated) =>
      MergeKeepsKeyLaw(fold, s.tasks[read.id], read, updated);
      assert next.tasks == s.tasks[read.id := Merge(s.tasks[read.id], read, updated)];
      assert next.tasks[read.id] == Merge(s.tasks[read.id], read, updated);
    case _ =>
  }

  /** Every step of every transaction keeps the law, except a split, which always breaks it. */
  lemma StepKeepsKeys(fold: Fold, s: Db, step: Step, next: Db)
    requires KeysLawful(fold, s) && Do(fold, s, step) == Some(next)
    ensures KeysLawful(fold, next) <==> !Splits(s, step)
  {
    hide Do, KeyLaw, TxLawful, RowsLawful;
    match step
    case Decide(t, id) =>
      NeedsTx(fold, s, step, next);
      assert TxLawful(fold, s.txs[t]);
      DecideTxLawful(fold, s, t, id, next);
    case Commit(t) =>
      NeedsTx(fold, s, step, next);
      CommitLawful(fold, s, t, next);
    case _ => OtherTxLawful(fold, s, step, next);
  }

  // ----- Runs -----

  /** Every state of the run, from first to last, obeys the law. */
  ghost predicate LawfulThroughout(fold: Fold, s: Db, steps: seq<Step>)
    decreases |steps|
  {
    && KeysLawful(fold, s)
    && (steps != [] && Do(fold, s, steps[0]).Some? ==> LawfulThroughout(fold, Do(fold, s, steps[0]).value, steps[1..]))
  }

  ghost predicate NeverSplits(fold: Fold, s: Db, steps: seq<Step>)
    decreases |steps|
  {
    steps != [] && Do(fold, s, steps[0]).Some? ==>
      !Splits(s, steps[0]) && NeverSplits(fold, Do(fold, s, steps[0]).value, steps[1..])
  }

  lemma {:induction false} LawfulFrom(fold: Fold, s: Db, steps: seq<Step>)
    requires KeysLawful(fold, s)
    ensures LawfulThroughout(fold, s, steps) <==> NeverSplits(fold, s, steps)
    decreases |steps|
  {
    hide Do, KeysLawful, Splits;
    if steps != [] && Do(fold, s, steps[0]).Some? {
      var next := Do(fold, s, steps[0]).value;
      StepKeepsKeys(fold, s, steps[0], next);
      if KeysLawful(fold, next) { LawfulFrom(fold, next, steps[1..]); } else { assert !LawfulThroughout(fold, next, steps[1..]); }
    }
  }

  /** From the first state on, a run keeps `title_key == normalize(title)` in every state if and
      only if none of its steps commits a same-key rename over a row whose key has moved. */
  lemma RunKeepsKeyLawIff(fold: Fold, steps: seq<Step>)
    ensures LawfulThroughout(fold, Init, steps) <==> NeverSplits(fold, Init, steps)
  {
    hide Do;
    LawfulFrom(fold, Init, steps);
  }

  // ----- Keys stay distinct -----

  lemma CommitKeepsDistinct(fold: Fold, s: Db, t: TxId, next: Db)
    requires Inv(s) && TitleKeysDistinct(s.tasks) && t in s.txs && Do(fold, s, Commit(t)) == Some(next)
    ensures TitleKeysDistinct(next.tasks)
  {
    hide Do, TitleKeysDistinct, KeyFree, Merge, Print, WellFormed, DocumentRules, Denotation;
    CommitTables(fold, s, t, next);
    TxAt(s, t);
    match s.txs[t].write
    case Insert(task) => PutKeysDistinct(s.tasks, task);
    case Update(read, updated) =>
      MergeMoves(s.tasks[read.id], read, updated);
      PutKeysDistinct(s.tasks, Merge(s.tasks[read.id], read, updated));
    case Remove(id) => DropKeysDistinct(s.tasks, id);
    case Install(_, _) =>
  }

  lemma DropKeysDistinct(tasks: map<nat, Task>, id: nat)
    requires TitleKeysDistinct(tasks)
    ensures TitleKeysDistinct(tasks - {id})
  {
  }

  lemma {:induction false} RunKeepsDistinct(fold: Fold, s: Db, steps: seq<Step>)
    requires Inv(s) && TitleKeysDistinct(s.tasks) && Run(fold, s, steps).Some?
    ensures TitleKeysDistinct(Run(fold, s, steps).value.tasks)
    decreases |steps|
  {
    hide Do, Inv, TitleKeysDistinct;
    if steps != [] {
      var next := Do(fold, s, steps[0]).value;
      if steps[0].Commit? {
        NeedsTx(fold, s, steps[0], next);
        CommitKeepsDistinct(fold, s, steps[0].t, next);
      } else {
        OnlyCommitsWrite(fold, s, steps[0], next);
      }
      StepKeeps(fold, s, steps[0], next);
      RunKeepsDistinct(fold, next, steps[1..]);
    }
  }

  /** Whatever the writers race for, no two stored tasks ever share a title key. */
  lemma StoredKeysAreDistinct(fold: Fold, s: Db, a: nat, b: nat)
    requires Reached(fold, s) && a in s.tasks && b in s.tasks && a != b
    ensures s.tasks[a].titleKey != s.tasks[b].titleKey
  {
    hide Do, Inv;
    InitIsOk();
    var steps :| Run(fold, Init, steps) == Some(s);
    RunKeepsDistinct(fold, Init, steps);
  }

  // ----- What a caller can check -----

  /** The title an edit asks for. */
  function TitleAsked(op: Op): Option<string> {
    match op
    case Replace(_, title, _, _, _, _) => Some(title)
    case PatchTask(_, patch, _) => patch.title
    case _ => None
  }

  /** The edit respells the title of the row it read and keeps its key. */
  predicate CaseOnly(fold: Fold, op: Op, read: Task) {
    && TitleAsked(op).Some?
    && Strip(TitleAsked(op).value) != read.title && NormalKey(fold, TitleAsked(op).value) == read.titleKey
  }

  predicate DecidesCaseOnly(fold: Fold, s: Db, step: Step) {
    && step.Decide? && step.t in s.txs && s.txs[step.t].WithTask?
    && CaseOnly(fold, s.txs[step.t].op, s.txs[step.t].read)
  }

  ghost predicate NeverCaseOnly(fold: Fold, s: Db, steps: seq<Step>)
    decreases |steps|
  {
    steps != [] && Do(fold, s, steps[0]).Some? ==>
      !DecidesCaseOnly(fold, s, steps[0]) && NeverCaseOnly(fold, Do(fold, s, steps[0]).value, steps[1..])
  }

  predicate NoneRecases(s: Db) {
    forall t :: t in s.txs ==> !Recases(s.txs[t])
  }

  /** An edit that is not case-only does not become a same-key rename. */
  lemma DecidedTitle(fold: Fold, s: Db, op: Op, checked: Option<Definition>, read: Task)
    requires (op.Replace? || op.PatchTask?) && checked.Some? == TakesShared(op) && !CaseOnly(fold, op, read)
    requires checked.Some? ==> ValidDefinition(checked.value)
    ensures
      var decided := DecideEdit(fold, s, op, checked, read);
      decided.Some? ==> decided.value.title == read.title || decided.value.titleKey != read.titleKey
  {
    hide EditRefusal;
  }

  lemma DecideRecases(fold: Fold, s: Db, t: TxId, id: nat, next: Db)
    requires NoneRecases(s) && Do(fold, s, Decide(t, id)) == Some(next) && !DecidesCaseOnly(fold, s, Decide(t, id))
    ensures NoneRecases(next)
  {
    hide DecideCreate, DecideEdit, UpdateEvents, ValidDefinition, CaseOnly;
    match s.txs[t]
    case WithEngine(_, _) =>
    case WithTask(op, checked, read) => if !op.Delete? { DecidedTitle(fold, s, op, checked, read); }
  }

  lemma OthersRecase(fold: Fold, s: Db, step: Step, next: Db)
    requires NoneRecases(s) && Do(fold, s, step) == Some(next) && !step.Decide?
    ensures NoneRecases(next)
  {
    hide WellFormed, DocumentRules, Print, Denotation, Highest, StatusesKnown, Seed.DefaultDefinition, Apply, Entries;
    if step.Commit? { CommitTables(fold, s, step.t, next); }
  }

  lemma {:induction false} NeverCaseOnlyNeverSplits(fold: Fold, s: Db, steps: seq<Step>)
    requires NoneRecases(s) && NeverCaseOnly(fold, s, steps)
    ensures NeverSplits(fold, s, steps)
    decreases |steps|
  {
    hide Do, DecidesCaseOnly, Recases;
    if steps != [] && Do(fold, s, steps[0]).Some? {
      var next := Do(fold, s, steps[0]).value;
      if steps[0].Decide? { DecideRecases(fold, s, steps[0].t, steps[0].id, next); } else { OthersRecase(fold, s, steps[0], next); }
      NeverCaseOnlyNeverSplits(fold, next, steps[1..]);
    }
  }

  /** A run in which no edit respells the title it read under the same key keeps the law
      throughout, however its transactions interleave. */
  lemma CaseOnlyRenamesAreToBlame(fold: Fold, steps: seq<Step>)
    requires NeverCaseOnly(fold, Init, steps)
    ensures LawfulThroughout(fold, Init, steps)
  {
    hide Do;
    NeverCaseOnlyNeverSplits(fold, Init, steps);
    RunKeepsKeyLawIff(fold, steps);
  }

  // ----- From nothing -----

  lemma FirstRowIsLawful(fold: Fold, title: string, status: string)
    requires NormalKey(fold, title) != ""
    ensures KeyLaw(fold, FirstRow(fold, title, status))
  {
    hide Strip;
    StripLaws(title);
  }

  /** Drift is reachable from the first state on: install any definition with an unlimited entry
      state, create one task in it, and let a case-only rename race a real one. */
  lemma DriftFromNothing(fold: Fold, x: TxId, t: TxId, u: TxId, d: Definition, status: string, title: string, caseOnly: string, other: string)
    requires DocumentRules(d) && status in EntryStates(d) && KnownName(d, status) && MetaOf(FindState(d.states, status).meta, WIP_LIMIT_META_KEY).Null?
    requires t != u && NormalKey(fold, title) != ""
    requires NormalKey(fold, caseOnly) == NormalKey(fold, title) && Strip(caseOnly) != Strip(title)
    requires NormalKey(fold, other) !in {NormalKey(fold, title), ""} && Strip(other) != Strip(title)
    ensures
      var race := Prepare(t, 0, caseOnly) + Prepare(u, 0, other) + [Commit(u), Commit(t)];
      var end := Run(fold, Init, Opening(x, d, title, status) + race);
      && end.Some? && Reached(fold, end.value) && 0 in end.value.tasks
      && end.value.tasks[0].title == Strip(caseOnly) && end.value.tasks[0].titleKey == NormalKey(fold, other)
      && !KeyLaw(fold, end.value.tasks[0])
  {
    hide Do, Run, DocumentRules, EntryStates, FindState, Opening, Prepare, Strip, NormalKey, KeyLaw;
    FirstRowIsLawful(fold, title, status);
    OpeningRuns(fold, x, d, title, status);
    var s := Run(fold, Init, Opening(x, d, title, status)).value;
    assert s.tasks[0] == FirstRow(fold, title, status) && KeyFree(s.tasks, 0, NormalKey(fold, other));
    RenamesSplitTitleFromKey(fold, s, 0, t, u, caseOnly, other);
    RunConcat(fold, Init, Opening(x, d, title, status), s, Prepare(t, 0, caseOnly) + Prepare(u, 0, other) + [Commit(u), Commit(t)]);
  }
}
