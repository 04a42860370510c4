/** The WIP bound is met. Creates that all count before any commits pass the check together: `k` of
    them take a state from one below its limit to limit + k - 1, in a run of the protocol that
    never has more than `k` task writes in flight. */
module WipOvershoot {
  import opened Wrappers
  import opened Text
  import opened Sets
  import opened Definitions
  import opened Documents
  import opened Engine
  import opened Tasks
  import opened GuardProtocol
  import opened GuardSafety
  import opened WipBound
  import opened KeyDrift
  import opened SerialAgreement
  import opened FirstRuns

  /** One create: its transaction, the id it will draw and its title. */
  datatype Writer = Writer(t: TxId, id: nat, title: string)

  function Asking(w: Writer, status: string): Op {
    Create(w.title, None, Some(status), 0)
  }

  function Row(fold: Fold, w: Writer, status: string): Task {
    Task(w.id, Strip(w.title), NormalKey(fold, w.title), None, status, 0)
  }

  function Waiting(fold: Fold, w: Writer, status: string): Tx {
    Ready(Insert(Row(fold, w, status)), [TaskCreated(Row(fold, w, status))], {})
  }

  /** Up to its commit: take the guard, read the definition, count and decide. */
  function Prepare(w: Writer, status: string): seq<Step> {
    [Begin(w.t, Asking(w, status)), Acquire(w.t), ReadDefinition(w.t)] + [Decide(w.t, w.id)]
  }

  function PrepareAll(ws: seq<Writer>, status: string): seq<Step> {
    if ws == [] then [] else Prepare(ws[0], status) + PrepareAll(ws[1..], status)
  }

  function CommitAll(ws: seq<Writer>): seq<Step> {
    if ws == [] then [] else [Commit(ws[0].t)] + CommitAll(ws[1..])
  }

  /** The creates can start: transactions not begun, ids not drawn, titles visible and free. */
  predicate Fresh(fold: Fold, s: Db, ws: seq<Writer>) {
    forall i :: 0 <= i < |ws| ==>
      && ws[i].t !in s.txs && ws[i].t !in s.shared && ws[i].id !in s.minted && ws[i].id !in s.tasks
      && NormalKey(fold, ws[i].title) != "" && KeyFree(s.tasks, ws[i].id, NormalKey(fold, ws[i].title))
  }

  predicate Different(fold: Fold, ws: seq<Writer>) {
    forall i, j :: 0 <= i < j < |ws| ==>
      ws[i].t != ws[j].t && ws[i].id != ws[j].id && NormalKey(fold, ws[i].title) != NormalKey(fold, ws[j].title)
  }

  /** The definition in force lets a create enter the state, up to the limit. */
  ghost predicate Limited(s: Db, d: Definition, status: string, limit: nat) {
    Current(s, d) && ValidDefinition(d) && HasLimit(d, status, limit) && status in EntryStates(d)
  }

  // ----- One writer -----

  /** Below the limit the check lets a create through, whoever else is waiting. */
  lemma CheckPasses(fold: Fold, s: Db, d: Definition, w: Writer, status: string, limit: nat)
    requires ValidDefinition(d) && HasLimit(d, status, limit) && status in EntryStates(d)
    requires CountIn(s.tasks, status) < limit && NormalKey(fold, w.title) != ""
    ensures DecideCreate(fold, s, Asking(w, status), d, w.id) == Some(Row(fold, w, status))
  {
    hide CountByStatus, CountIn, EntryStates;
    CountLookup(s.tasks, status);
    assert NeedsOccupancy(d, None, Some(status));
    assert CheckWip(d, status, CountByStatus(s.tasks)).None?;
    assert ResolveEntry(d, Some(status), Context({}, CountByStatus(s.tasks))) == Ok(status);
  }

  function Prepared(fold: Fold, s: Db, w: Writer, status: string): Db {
    s.(txs := s.txs[w.t := Waiting(fold, w, status)], shared := s.shared + {w.t}, minted := s.minted + {w.id})
  }

  lemma PrepareOne(fold: Fold, s: Db, d: Definition, w: Writer, status: string, limit: nat)
    requires Limited(s, d, status, limit) && CountIn(s.tasks, status) < limit && s.exclusive.None? && Fresh(fold, s, [w])
    ensures Run(fold, s, Prepare(w, status)) == Some(Prepared(fold, s, w, status))
  {
    hide Do, Run, Current, HasLimit, CountIn, DecideCreate;
    assert [w][0] == w;
    var h := With(s, w.t, WithEngine(Asking(w, status), d), true);
    GuardedStart(fold, s, w.t, Asking(w, status), d);
    RunLast(fold, s, [Begin(w.t, Asking(w, status)), Acquire(w.t), ReadDefinition(w.t)], Decide(w.t, w.id));
    DecideCreateAlone(fold, s, w.t, d, Asking(w, status), w.id);
    CheckPasses(fold, s, d, w, status, limit);
  }

  // ----- Runs in which the definition stands -----

  lemma {:induction false} BetweenConcat(fold: Fold, s: Db, first: seq<Step>, second: seq<Step>, k: nat)
    requires Between(fold, s, first, k) && Run(fold, s, first).Some?
    requires Between(fold, Run(fold, s, first).value, second, k)
    ensures Between(fold, s, first + second, k)
    ensures Run(fold, s, first + second) == Run(fold, Run(fold, s, first).value, second)
    decreases |first|
  {
    hide Do;
    if first == [] {
      assert first + second == second;
    } else {
      assert (first + second)[1..] == first[1..] + second;
      BetweenConcat(fold, Do(fold, s, first[0]).value, first[1..], second, k);
    }
  }

  /** Steps that write no table, and end with few enough locks held, keep the definition. */
  lemma {:induction false} BetweenReads(fold: Fold, s: Db, steps: seq<Step>, k: nat)
    requires Run(fold, s, steps).Some? && (forall i :: 0 <= i < |steps| ==> !steps[i].Commit? && !steps[i].Abort?)
    requires |Run(fold, s, steps).value.shared| <= k
    ensures Between(fold, s, steps, k) && s.shared <= Run(fold, s, steps).value.shared
    decreases |steps|
  {
    hide Do;
    if steps != [] {
      var next := Do(fold, s, steps[0]).value;
      OnlyCommitsWrite(fold, s, steps[0], next);
      LocksGrow(fold, s, steps[0], next);
      BetweenReads(fold, next, steps[1..], k);
      SubsetSize(next.shared, Run(fold, s, steps).value.shared);
    }
  }

  lemma LocksGrow(fold: Fold, s: Db, step: Step, next: Db)
    requires Do(fold, s, step) == Some(next) && !step.Commit? && !step.Abort?
    ensures s.shared <= next.shared
  {
    hide WellFormed, DocumentRules, Print, Denotation, Highest, DecideCreate, DecideEdit, UpdateEvents, StatusesKnown;
  }

  // ----- All writers -----

  function Ids(ws: seq<Writer>): set<nat> {
    set i | 0 <= i < |ws| :: ws[i].t
  }

  /** All have counted and none has committed. */
  predicate AllWaiting(fold: Fold, s: Db, ws: seq<Writer>, status: string) {
    forall i :: 0 <= i < |ws| ==> ws[i].t in s.txs && s.txs[ws[i].t] == Waiting(fold, ws[i], status)
  }

  predicate SameTables(s: Db, next: Db) {
    && next.tasks == s.tasks && next.documents == s.documents && next.installed == s.installed
    && next.exclusive == s.exclusive
  }

  lemma FreshNext(fold: Fold, s: Db, ws: seq<Writer>, status: string)
    requires ws != [] && Fresh(fold, s, ws) && Different(fold, ws)
    ensures Fresh(fold, s, [ws[0]]) && Fresh(fold, Prepared(fold, s, ws[0], status), ws[1..]) && Different(fold, ws[1..])
    ensures ws[0].t !in s.txs && ws[0].t !in Ids(ws[1..])
  {
    hide KeyFree, NormalKey;
    forall i | 0 <= i < |ws[1..]| ensures ws[1..][i].t != ws[0].t && ws[1..][i].id != ws[0].id {
      assert ws[1..][i] == ws[i + 1];
    }
  }

  /** Every writer decides on the same count, so every writer passes. */
  lemma {:induction false} AllPrepare(fold: Fold, s: Db, d: Definition, ws: seq<Writer>, status: string, limit: nat)
    requires Limited(s, d, status, limit) && CountIn(s.tasks, status) < limit && s.exclusive.None?
    requires Fresh(fold, s, ws) && Different(fold, ws)
    ensures
      var end := Run(fold, s, PrepareAll(ws, status));
      && end.Some? && SameTables(s, end.value) && AllWaiting(fold, end.value, ws, status)
      && end.value.shared == s.shared + Ids(ws)
      && (forall u :: u in s.txs ==> u in end.value.txs && end.value.txs[u] == s.txs[u])
      && end.value.txs.Keys == s.txs.Keys + Ids(ws)
    decreases |ws|
  {
    hide Do, Run, Limited, CountIn, Fresh, Different, Waiting, Prepare;
    if ws == [] {
      assert Run(fold, s, []) == Some(s) by { RunNothing(fold, s); }
      assert s.shared + Ids(ws) == s.shared && s.txs.Keys + Ids(ws) == s.txs.Keys;
    } else {
      var next := Prepared(fold, s, ws[0], status);
      FreshNext(fold, s, ws, status);
      PrepareOne(fold, s, d, ws[0], status, limit);
      RunConcat(fold, s, Prepare(ws[0], status), next, PrepareAll(ws[1..], status));
      StillLimited(s, next, d, status, limit);
      AllPrepare(fold, next, d, ws[1..], status, limit);
      FirstId(ws);
      assert forall i :: 0 < i < |ws| ==> ws[i] == ws[1..][i - 1];
    }
  }

  lemma RunNothing(fold: Fold, s: Db)
    ensures Run(fold, s, []) == Some(s)
  {
  }

  lemma StillLimited(s: Db, next: Db, d: Definition, status: string, limit: nat)
    requires Limited(s, d, status, limit) && next.documents == s.documents
    ensures Limited(next, d, status, limit)
  {
    hide HasLimit, ValidDefinition;
  }

  lemma FirstId(ws: seq<Writer>)
    requires ws != []
    ensures Ids(ws) == {ws[0].t} + Ids(ws[1..])
  {
    forall t ensures t in Ids(ws) <==> t == ws[0].t || t in Ids(ws[1..]) {
      if t in Ids(ws) { var i :| 0 <= i < |ws| && ws[i].t == t; assert i > 0 ==> ws[1..][i - 1].t == t; }
      if t in Ids(ws[1..]) { var i :| 0 <= i < |ws[1..]| && ws[1..][i].t == t; assert ws[i + 1].t == t; }
      assert ws[0].t == t ==> t in Ids(ws);
    }
  }

  /** The titles and ids still free among the rows. */
  predicate Free(fold: Fold, s: Db, ws: seq<Writer>) {
    forall i :: 0 <= i < |ws| ==> ws[i].id !in s.tasks && KeyFree(s.tasks, ws[i].id, NormalKey(fold, ws[i].title))
  }

  /** One commit of a waiting create. */
  lemma CommitOne(fold: Fold, s: Db, ws: seq<Writer>, status: string)
    requires ws != [] && AllWaiting(fold, s, ws, status) && Free(fold, s, ws) && Different(fold, ws)
    ensures
      var end := Do(fold, s, Commit(ws[0].t));
      && end.Some? && end.value.tasks == s.tasks[ws[0].id := Row(fold, ws[0], status)] && end.value.txs == s.txs - {ws[0].t}
      && end.value.shared == s.shared - {ws[0].t} && end.value.documents == s.documents && end.value.installed == s.installed
      && end.value.exclusive == (if s.exclusive == Some(ws[0].t) then None else s.exclusive)
  {
    hide Highest, Entries, NormalKey, Different, KeyFree;
    assert ws[0].t in s.txs && s.txs[ws[0].t] == Waiting(fold, ws[0], status);
  }

  lemma StillWaiting(fold: Fold, s: Db, next: Db, ws: seq<Writer>, status: string)
    requires ws != [] && AllWaiting(fold, s, ws, status) && Free(fold, s, ws) && Different(fold, ws)
    requires next.txs == s.txs - {ws[0].t} && next.tasks == s.tasks[ws[0].id := Row(fold, ws[0], status)]
    ensures AllWaiting(fold, next, ws[1..], status) && Free(fold, next, ws[1..]) && Different(fold, ws[1..])
  {
    hide Waiting, NormalKey;
    forall i | 0 <= i < |ws[1..]| ensures ws[1..][i].t != ws[0].t && ws[1..][i].id != ws[0].id
      && NormalKey(fold, ws[1..][i].title) != NormalKey(fold, ws[0].title)
    {
      assert ws[1..][i] == ws[i + 1];
    }
  }

  lemma {:induction false} AllCommit(fold: Fold, s: Db, ws: seq<Writer>, status: string, k: nat)
    requires AllWaiting(fold, s, ws, status) && Free(fold, s, ws) && Different(fold, ws) && |s.shared| <= k && s.exclusive.None?
    ensures Between(fold, s, CommitAll(ws), k) && Run(fold, s, CommitAll(ws)).Some?
    ensures CountIn(Run(fold, s, CommitAll(ws)).value.tasks, status) == CountIn(s.tasks, status) + |ws|
    decreases |ws|
  {
    hide Do, AllWaiting, Different, CountIn, NormalKey, KeyFree;
    if ws != [] {
      CommitOne(fold, s, ws, status);
      var next := Do(fold, s, Commit(ws[0].t)).value;
      StillWaiting(fold, s, next, ws, status);
      SubsetSize(next.shared, s.shared);
      InsertCounts(s.tasks, Row(fold, ws[0], status));
      AllCommit(fold, next, ws[1..], status, k);
      assert CommitAll(ws)[1..] == CommitAll(ws[1..]);
    }
  }

  // ----- The bound -----

  lemma {:induction false} NoCommits(ws: seq<Writer>, status: string)
    ensures forall i :: 0 <= i < |PrepareAll(ws, status)| ==> !PrepareAll(ws, status)[i].Commit? && !PrepareAll(ws, status)[i].Abort?
  {
    if ws != [] { NoCommits(ws[1..], status); }
  }

  lemma {:induction false} IdsCount(fold: Fold, ws: seq<Writer>)
    requires Different(fold, ws)
    ensures |Ids(ws)| == |ws|
  {
    hide NormalKey;
    if ws != [] {
      FirstId(ws);
      forall i, j | 0 <= i < j < |ws[1..]|
        ensures ws[1..][i].t != ws[1..][j].t && ws[1..][i].id != ws[1..][j].id
          && NormalKey(fold, ws[1..][i].title) != NormalKey(fold, ws[1..][j].title)
      {
        assert ws[1..][i] == ws[i + 1] && ws[1..][j] == ws[j + 1];
      }
      IdsCount(fold, ws[1..]);
      assert forall i :: 0 <= i < |ws[1..]| ==> ws[1..][i] == ws[i + 1];
    }
  }

  lemma FreshIsFree(fold: Fold, s: Db, next: Db, ws: seq<Writer>)
    requires Fresh(fold, s, ws) && next.tasks == s.tasks
    ensures Free(fold, next, ws)
  {
    hide KeyFree, NormalKey;
  }

  /** The bound is met for every `k`. From any state whose definition limits the status and whose
      count is one below the limit, with no task write in flight, `k` creates that all count before
      any commits end with limit + k - 1 items, never having had more than `k` writes in flight. */
  lemma WritersOvershoot(fold: Fold, s: Db, d: Definition, ws: seq<Writer>, status: string, limit: nat)
    requires Limited(s, d, status, limit) && s.exclusive.None? && s.shared == {}
    requires Fresh(fold, s, ws) && Different(fold, ws) && CountIn(s.tasks, status) + 1 == limit
    ensures
      var steps := PrepareAll(ws, status) + CommitAll(ws);
      && Between(fold, s, steps, |ws|) && Run(fold, s, steps).Some?
      && CountIn(Run(fold, s, steps).value.tasks, status) == limit - 1 + |ws|
      && (Reached(fold, s) ==> Reached(fold, Run(fold, s, steps).value))
  {
    hide Do, Run, Between, Limited, Fresh, Different, AllWaiting, CountIn, Reached;
    AllPrepare(fold, s, d, ws, status, limit);
    var prepared := Run(fold, s, PrepareAll(ws, status)).value;
    NoCommits(ws, status);
    IdsCount(fold, ws);
    assert s.shared + Ids(ws) == Ids(ws);
    BetweenReads(fold, s, PrepareAll(ws, status), |ws|);
    FreshIsFree(fold, s, prepared, ws);
    AllCommit(fold, prepared, ws, status, |ws|);
    BetweenConcat(fold, s, PrepareAll(ws, status), CommitAll(ws), |ws|);
    if Reached(fold, s) { ReachedOn(fold, s, PrepareAll(ws, status) + CommitAll(ws)); }
  }

  /** Such runs exist from the very first state: install any definition with a limit of 1 on an
      entry state, and `k` creates leave `k` items in it. */
  lemma OvershootFromNothing(fold: Fold, x: TxId, d: Definition, ws: seq<Writer>, status: string)
    requires DocumentRules(d) && HasLimit(d, status, 1) && status in EntryStates(d) && Different(fold, ws)
    requires forall i :: 0 <= i < |ws| ==> NormalKey(fold, ws[i].title) != ""
    ensures
      var steps := InstallSteps(x, PutWorkflow(Print(d))) + (PrepareAll(ws, status) + CommitAll(ws));
      Run(fold, Init, steps).Some? && CountIn(Run(fold, Init, steps).value.tasks, status) == |ws|
  {
    hide Do, Run, Between, Fresh, Different, HasLimit, DocumentRules, Print, Denotation, WellFormed, EntryStates, InstallSteps, Installed;
    FirstInstall(fold, x, d);
    var s := Run(fold, Init, InstallSteps(x, PutWorkflow(Print(d)))).value;
    assert Limited(s, d, status, 1) by { RulesAreValid(d); }
    assert Fresh(fold, s, ws) by { EmptyIsFresh(fold, s, ws); }
    assert InState(s.tasks, status) == {};
    WritersOvershoot(fold, s, d, ws, status, 1);
    RunConcat(fold, Init, InstallSteps(x, PutWorkflow(Print(d))), s, PrepareAll(ws, status) + CommitAll(ws));
  }

  lemma EmptyIsFresh(fold: Fold, s: Db, ws: seq<Writer>)
    requires s.tasks == map[] && s.txs == map[] && s.shared == {} && s.minted == {}
    requires forall i :: 0 <= i < |ws| ==> NormalKey(fold, ws[i].title) != ""
    ensures Fresh(fold, s, ws)
  {
  }
}
