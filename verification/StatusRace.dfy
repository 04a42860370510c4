/** Two status writers on one task. Both are checked against the status both read; committed one
    after the other they move the row twice, and the second move is along a pair nobody checked. */
module StatusRace {
  import opened Wrappers
  import opened Definitions
  import opened Documents
  import opened Engine
  import opened GuardLaws
  import opened Tasks
  import opened GuardProtocol
  import opened GuardSafety
  import opened GuardReplay
  import opened KeyDrift
  import opened SerialAgreement
  import opened FirstRuns
  import Seed

  function MoveTo(id: nat, to: string, roles: set<string>): Op {
    PatchTask(id, Patch(None, None, Some(to), None), roles)
  }

  /** Up to its commit: take the guard, read definition and row, check and decide. */
  function PrepareMove(x: TxId, op: Op): seq<Step> {
    [Begin(x, op), Acquire(x), ReadDefinition(x)] + [ReadTask(x), Decide(x, 0)]
  }

  function Moved(row: Task, to: string): Task {
    row.(status := to)
  }

  function Waiting(d: Definition, row: Task, to: string, roles: set<string>): Tx
    requires KnownName(d, to)
  {
    Ready(Update(row, Moved(row, to)), UpdateEvents(Moved(row, to), row, Some(d)), roles)
  }

  /** The engine lets this actor take the row from the status it has to that one. */
  predicate Permitted(s: Db, d: Definition, row: Task, to: string, roles: set<string>)
    requires ValidDefinition(d)
  {
    to != row.status && KnownName(d, to) && EditRefusal(s, MoveTo(row.id, to, roles), d, row).None?
  }

  lemma DecidesMove(fold: Fold, s: Db, d: Definition, row: Task, to: string, roles: set<string>)
    requires ValidDefinition(d) && Permitted(s, d, row, to, roles)
    ensures DecideEdit(fold, s, MoveTo(row.id, to, roles), Some(d), row) == Some(Moved(row, to))
    ensures UpdateEvents(Moved(row, to), row, Some(d)) != []
  {
    hide EditRefusal, Completes;
    EventsSayWhatMoved(Moved(row, to), row, Some(d));
  }

  lemma MoveIsPrepared(fold: Fold, s: Db, x: TxId, d: Definition, id: nat, to: string, roles: set<string>)
    requires Quiet(s, x) && Current(s, d) && ValidDefinition(d) && id in s.tasks && s.tasks[id].id == id
    requires Permitted(s, d, s.tasks[id], to, roles)
    ensures Run(fold, s, PrepareMove(x, MoveTo(id, to, roles))) == Some(With(s, x, Waiting(d, s.tasks[id], to, roles), true))
  {
    hide Do, Run, Current, UpdateEvents, DecideEdit, ValidDefinition, EditRefusal;
    var op, row := MoveTo(id, to, roles), s.tasks[id];
    GuardedStart(fold, s, x, op, d);
    RunConcat(fold, s, [Begin(x, op), Acquire(x), ReadDefinition(x)], With(s, x, WithEngine(op, d), true), [ReadTask(x), Decide(x, 0)]);
    DecidesMove(fold, s, d, row, to, roles);
    EditTail(fold, s, x, op, Some(d));
  }

  /** Committing a prepared move over whatever the row has become. */
  lemma MoveCommits(fold: Fold, s: Db, x: TxId, d: Definition, row: Task, to: string, roles: set<string>)
    requires KnownName(d, to) && to != row.status && x in s.txs && s.txs[x] == Waiting(d, row, to, roles)
    requires row.id in s.tasks && s.tasks[row.id].id == row.id && s.tasks[row.id].titleKey == row.titleKey
    requires KeyFree(s.tasks, row.id, row.titleKey)
    ensures
      var end := Do(fold, s, Commit(x));
      && end.Some? && end.value.tasks == s.tasks[row.id := Moved(s.tasks[row.id], to)] && end.value.txs == s.txs - {x}
      && EventsIn(end.value.log) == EventsIn(s.log) + UpdateEvents(Moved(row, to), row, Some(d))
      && end.value.installed == s.installed
  {
    hide Highest, Entries, KeyFree, UpdateEvents, EventsIn;
    var events := UpdateEvents(Moved(row, to), row, Some(d));
    LoggedAll(s.log, events, roles, Highest(s.documents.Keys));
  }

  lemma LoggedAll(log: seq<Entry>, events: seq<Event>, roles: set<string>, version: int)
    ensures EventsIn(log + Entries(events, roles, version)) == EventsIn(log) + events
  {
  }

  /** Both writers read the row, then one commits. */
  function FirstCommitted(t: TxId, u: TxId, id: nat, b: string, c: string, roles: set<string>): seq<Step> {
    PrepareMove(t, MoveTo(id, b, roles)) + PrepareMove(u, MoveTo(id, c, roles)) + [Commit(t)]
  }

  lemma BothPrepared(fold: Fold, s: Db, d: Definition, id: nat, t: TxId, u: TxId, b: string, c: string, roles: set<string>)
    requires t != u && Quiet(s, t) && Quiet(s, u) && Current(s, d) && ValidDefinition(d) && id in s.tasks && s.tasks[id].id == id
    requires Permitted(s, d, s.tasks[id], b, roles) && Permitted(s, d, s.tasks[id], c, roles)
    ensures
      var one := With(s, t, Waiting(d, s.tasks[id], b, roles), true);
      Run(fold, s, PrepareMove(t, MoveTo(id, b, roles)) + PrepareMove(u, MoveTo(id, c, roles)))
        == Some(With(one, u, Waiting(d, s.tasks[id], c, roles), true))
  {
    hide Do, Run, Current, Waiting, ValidDefinition, PrepareMove, CheckMove, Occupancy;
    var row := s.tasks[id];
    var one := With(s, t, Waiting(d, row, b, roles), true);
    MoveIsPrepared(fold, s, t, d, id, b, roles);
    StillCurrent(s, one, d);
    MoveIsPrepared(fold, one, u, d, id, c, roles);
    RunConcat(fold, s, PrepareMove(t, MoveTo(id, b, roles)), one, PrepareMove(u, MoveTo(id, c, roles)));
  }

  lemma StillCurrent(s: Db, next: Db, d: Definition)
    requires Current(s, d) && next.documents == s.documents
    ensures Current(next, d)
  {
  }

  /** With no hypothesis on the pair (b, c): from any state in which the actor may take the task
      from its status to `b` and to `c`, both checks pass, both commits succeed, the second finds the
      row at `b` and moves it to `c`, and both events name the status the row had at first. */
  lemma MovesOvertake(fold: Fold, s: Db, d: Definition, id: nat, t: TxId, u: TxId, b: string, c: string, roles: set<string>)
    requires t != u && Quiet(s, t) && Quiet(s, u) && Current(s, d) && ValidDefinition(d) && id in s.tasks && s.tasks[id].id == id
    requires KeyFree(s.tasks, id, s.tasks[id].titleKey)
    requires Permitted(s, d, s.tasks[id], b, roles) && Permitted(s, d, s.tasks[id], c, roles)
    ensures
      var row := s.tasks[id];
      var middle := Run(fold, s, FirstCommitted(t, u, id, b, c, roles));
      var end := Run(fold, s, FirstCommitted(t, u, id, b, c, roles) + [Commit(u)]);
      && middle.Some? && middle.value.tasks == s.tasks[id := Moved(row, b)] && Overtakes(middle.value, Commit(u))
      && end.Some? && end == Do(fold, middle.value, Commit(u)) && end.value.tasks == s.tasks[id := Moved(row, c)]
      && middle.value.installed == s.installed
      && EventsIn(end.value.log) == EventsIn(s.log) + UpdateEvents(Moved(row, b), row, Some(d)) + UpdateEvents(Moved(row, c), row, Some(d))
  {
    hide Do, Run, Current, UpdateEvents, ValidDefinition, PrepareMove, EventsIn, KeyFree, EditRefusal;
    var row := s.tasks[id];
    var prepared := PrepareMove(t, MoveTo(id, b, roles)) + PrepareMove(u, MoveTo(id, c, roles));
    BothPrepared(fold, s, d, id, t, u, b, c, roles);
    var both := Run(fold, s, prepared).value;
    MoveCommits(fold, both, t, d, row, b, roles);
    RunLast(fold, s, prepared, Commit(t));
    var middle := Do(fold, both, Commit(t)).value;
    StillFree(s.tasks, id, Moved(row, b));
    MoveCommits(fold, middle, u, d, row, c, roles);
    RunLast(fold, s, FirstCommitted(t, u, id, b, c, roles), Commit(u));
    assert s.tasks[id := Moved(row, b)][id := Moved(Moved(row, b), c)] == s.tasks[id := Moved(row, c)];
  }

  lemma StillFree(tasks: map<nat, Task>, id: nat, task: Task)
    requires id in tasks && KeyFree(tasks, id, tasks[id].titleKey)
    ensures KeyFree(tasks[id := task], id, tasks[id].titleKey)
  {
  }

  // ----- From nothing -----

  const NEW := Seed.NEW
  const IN_PROGRESS := Seed.IN_PROGRESS
  const COMPLETED := Seed.COMPLETED

  function ForkTable(n: string, p: string, c: string): TransitionTable {
    map[(n, p) := Seed.Move("Start work", n, p), (n, c) := Seed.Move("Complete", n, c)]
  }

  /** The default's states, with two ways on from `new` and none between them. */
  function Fork(): Definition {
    Definition(Seed.DefaultStates(), ForkTable(NEW, IN_PROGRESS, COMPLETED))
  }

  lemma ForkTableObeysRules(n: string, p: string, c: string)
    ensures forall key :: key in ForkTable(n, p, c) ==> TransitionRules(ForkTable(n, p, c)[key])
  {
    hide TransitionRules, Seed.Move;
    Seed.MoveObeysRules("Start work", n, p);
    Seed.MoveObeysRules("Complete", n, c);
  }

  lemma AllInitial(d: Definition)
    requires d.states == Seed.DefaultStates()
    ensures forall name :: KnownName(d, name) ==> name in EntryStates(d)
  {
    forall name | KnownName(d, name) ensures name in EntryStates(d) {
      MarkedExact(d.states, name);
      var i :| 0 <= i < |d.states| && Names(d.states)[i] == name;
      assert d.states[i].initial && d.states[i].name == name;
    }
  }

  lemma ForkIsValid()
    ensures ValidDefinition(Fork()) && KnownName(Fork(), NEW) && KnownName(Fork(), IN_PROGRESS) && KnownName(Fork(), COMPLETED)
  {
    Seed.DefaultNames();
  }

  lemma ForkObeysRules()
    ensures DocumentRules(Fork()) && NEW in EntryStates(Fork())
  {
    hide StateRules, TransitionRules, EntryStates, Reachable;
    var d := Fork();
    ForkIsValid();
    forall i | 0 <= i < 3 ensures StateRules(Seed.DefaultStates()[i]) { Seed.DefaultStatesObeyRules(i); }
    ForkTableObeysRules(NEW, IN_PROGRESS, COMPLETED);
    AllInitial(d);
    forall name | KnownName(d, name) ensures Reachable(d, name) { EntryReachable(d, name); }
  }

  /** No state of it declares a limit. */
  lemma ForkIsUnlimited(status: string)
    requires KnownName(Fork(), status)
    ensures WIP_LIMIT_META_KEY !in FindState(Fork().states, status).meta
  {
    var states := Seed.DefaultStates();
    var i :| 0 <= i < |states| && states[i] == FindState(states, status);
    assert COMPLETES_META_KEY[0] != WIP_LIMIT_META_KEY[0];
  }

  lemma ForkPermits(s: Db, row: Task, to: string)
    requires row.status == NEW && to in {IN_PROGRESS, COMPLETED}
    ensures ValidDefinition(Fork()) && Permitted(s, Fork(), row, to, {})
  {
    hide DocumentRules, ValidDefinition, FindState, Occupancy, CheckMove, RoleMet, Seed.DefaultStates;
    var d := Fork();
    ForkObeysRules();
    ForkIsValid();
    RulesAreValid(d);
    Seed.DefaultNames();
    ForkIsUnlimited(to);
    assert (NEW, to) in d.transitions;
    StateHasRules(d, to);
    var op := MoveTo(row.id, to, {});
    assert Target(op, d, row) == to;
    ForkMove(d, to, Context({}, Occupancy(s.tasks, d, Some(NEW), Some(to))));
  }

  lemma ForkMove(d: Definition, to: string, context: Context)
    requires d == Fork() && DocumentRules(d) && KnownName(d, NEW) && KnownName(d, to) && to in {IN_PROGRESS, COMPLETED}
    ensures CheckMove(d, NEW, to, context).None?
  {
    hide DocumentRules, ValidDefinition, FindState, Seed.DefaultStates, CheckWip;
    ForkIsUnlimited(to);
    NoLimitNoRefusal(d, to, context.occupancy);
    Seed.DefaultNames();
  }

  lemma NoLimitNoRefusal(d: Definition, status: string, occupancy: map<string, nat>)
    requires KnownName(d, status) && WIP_LIMIT_META_KEY !in FindState(d.states, status).meta
    ensures CheckWip(d, status, occupancy).None?
  {
    hide FindState;
  }

  /** The race from the first state on: install the fork, create one task, and let two writers take
      it from `new` to `b` and to `c`. */
  function Race(x: TxId, t: TxId, u: TxId, title: string, b: string, c: string): seq<Step> {
    Opening(x, Fork(), title, NEW) + FirstCommitted(t, u, 0, b, c, {})
  }

  lemma RaceRuns(fold: Fold, x: TxId, t: TxId, u: TxId, title: string, b: string, c: string)
    requires t != u && NormalKey(fold, title) != "" && b in {IN_PROGRESS, COMPLETED} && c in {IN_PROGRESS, COMPLETED}
    requires KnownName(Fork(), b) && KnownName(Fork(), c)
    ensures
      var row := FirstRow(fold, title, NEW);
      var middle := Run(fold, Init, Race(x, t, u, title, b, c));
      var end := Run(fold, Init, Race(x, t, u, title, b, c) + [Commit(u)]);
      && middle.Some? && Reached(fold, middle.value) && middle.value.tasks == map[0 := Moved(row, b)]
      && Active(middle.value) == Some(Fork()) && Overtakes(middle.value, Commit(u))
      && end.Some? && end == Do(fold, middle.value, Commit(u)) && end.value.tasks == map[0 := Moved(row, c)]
      && UpdateEvents(Moved(row, b), row, Some(Fork())) + UpdateEvents(Moved(row, c), row, Some(Fork())) <= EventsSince(fold, x, title, end.value)
  {
    hide Do, Run, Current, UpdateEvents, ValidDefinition, DocumentRules, EventsIn, Opening, FirstCommitted, Fork, EntryStates, FindState, Permitted, Active, Overtakes;
    assert Race(x, t, u, title, b, c) == Opening(x, Fork(), title, NEW) + FirstCommitted(t, u, 0, b, c, {});
    ForkOpens(fold, x, title);
    var s := Run(fold, Init, Opening(x, Fork(), title, NEW)).value;
    var row := FirstRow(fold, title, NEW);
    ForkPermits(s, row, b);
    ForkPermits(s, row, c);
    assert s.tasks[0] == row && KeyFree(s.tasks, 0, row.titleKey);
    MovesOvertake(fold, s, Fork(), 0, t, u, b, c, {});
    var middle := Run(fold, s, FirstCommitted(t, u, 0, b, c, {})).value;
    RunConcat(fold, Init, Opening(x, Fork(), title, NEW), s, FirstCommitted(t, u, 0, b, c, {}));
    RunLast(fold, Init, Race(x, t, u, title, b, c), Commit(u));
    ActiveFollows(s, middle);
    assert s.tasks[0 := Moved(row, b)] == map[0 := Moved(row, b)] && s.tasks[0 := Moved(row, c)] == map[0 := Moved(row, c)];
    var end := Do(fold, middle, Commit(u)).value;
    var all := UpdateEvents(Moved(row, b), row, Some(Fork())) + UpdateEvents(Moved(row, c), row, Some(Fork()));
    assert EventsIn(end.log) == EventsIn(s.log) + all;
    assert (EventsIn(s.log) + all)[|EventsIn(s.log)|..] == all;
  }

  /** The events committed since the task was created. */
  ghost function EventsSince(fold: Fold, x: TxId, title: string, end: Db): seq<Event> {
    var start := Run(fold, Init, Opening(x, Fork(), title, NEW));
    if start.None? || |EventsIn(start.value.log)| > |EventsIn(end.log)| then []
    else EventsIn(end.log)[|EventsIn(start.value.log)|..]
  }

  lemma ActiveFollows(s: Db, next: Db)
    requires next.installed == s.installed
    ensures Active(next) == Active(s)
  {
  }

  lemma ForkOpens(fold: Fold, x: TxId, title: string)
    requires NormalKey(fold, title) != ""
    ensures
      var end := Run(fold, Init, Opening(x, Fork(), title, NEW));
      && end.Some? && Reached(fold, end.value) && Current(end.value, Fork()) && Active(end.value) == Some(Fork())
      && end.value.tasks == map[0 := FirstRow(fold, title, NEW)] && end.value.txs == map[] && end.value.shared == {}
      && end.value.exclusive.None? && ValidDefinition(Fork())
  {
    hide Run, DocumentRules, ValidDefinition, Current, Active, Opening, EntryStates, FindState, Fork;
    ForkObeysRules();
    ForkIsValid();
    ForkIsUnlimited(NEW);
    OpeningRuns(fold, x, Fork(), title, NEW);
  }

  /** The documented rule, that a status change is legal only if the definition names its pair, fails
      of rows: in this run a row goes from `in_progress` to `completed` under a definition that
      names no such pair, though every announced pair is named. */
  lemma RowLeavesTheTransitions(fold: Fold, x: TxId, t: TxId, u: TxId, title: string)
    requires t != u && NormalKey(fold, title) != ""
    ensures
      var middle := Run(fold, Init, Race(x, t, u, title, IN_PROGRESS, COMPLETED));
      && middle.Some? && Reached(fold, middle.value) && Active(middle.value) == Some(Fork())
      && var end := Do(fold, middle.value, Commit(u));
         && end.Some? && 0 in middle.value.tasks && 0 in end.value.tasks
         && middle.value.tasks[0].status == IN_PROGRESS && end.value.tasks[0].status == COMPLETED
         && (IN_PROGRESS, COMPLETED) !in Fork().transitions
  {
    hide Do, Run, Race, Active, Fork, EventsSince, Overtakes;
    ForkIsValid();
    PairIsMissing();
    RaceRuns(fold, x, t, u, title, IN_PROGRESS, COMPLETED);
  }

  lemma PairIsMissing()
    ensures (IN_PROGRESS, COMPLETED) !in Fork().transitions
  {
    hide Seed.DefaultStates;
    Seed.DefaultNames();
  }

  /** Two writers completing one task each announce the completion; the row enters it once. */
  lemma CompletedTwice(fold: Fold, x: TxId, t: TxId, u: TxId, title: string)
    requires t != u && NormalKey(fold, title) != ""
    ensures
      var done := Moved(FirstRow(fold, title, NEW), COMPLETED);
      var middle := Run(fold, Init, Race(x, t, u, title, COMPLETED, COMPLETED));
      && middle.Some? && middle.value.tasks == map[0 := done]
      && var end := Do(fold, middle.value, Commit(u));
         && end.Some? && end.value.tasks == map[0 := done]
         && var events := EventsSince(fold, x, title, end.value);
            exists i, j :: 0 <= i < j < |events| && events[i] == events[j] == TaskCompleted(done)
  {
    hide Do, Run, Race, Active, Seed.DefaultStates, EventsSince, Fork, FindState;
    ForkIsValid();
    RaceRuns(fold, x, t, u, title, COMPLETED, COMPLETED);
    var row := FirstRow(fold, title, NEW);
    var done := Moved(row, COMPLETED);
    var events := UpdateEvents(done, row, Some(Fork()));
    CompletionAnnounced(row);
    var end := Do(fold, Run(fold, Init, Race(x, t, u, title, COMPLETED, COMPLETED)).value, Commit(u)).value;
    var all := EventsSince(fold, x, title, end);
    assert (events + events)[2] == all[2] == TaskCompleted(done) && (events + events)[5] == all[5] == TaskCompleted(done);
  }

  lemma CompletionAnnounced(row: Task)
    requires row.status == NEW && KnownName(Fork(), COMPLETED)
    ensures
      var events := UpdateEvents(Moved(row, COMPLETED), row, Some(Fork()));
      |events| == 3 && events[2] == TaskCompleted(Moved(row, COMPLETED))
  {
    hide FindState;
    Seed.DefaultNames();
    CompletedCompletes();
  }

  lemma CompletedCompletes()
    requires KnownName(Fork(), COMPLETED)
    ensures Completes(Fork(), COMPLETED)
  {
    Seed.DefaultNames();
    var states := Seed.DefaultStates();
    assert states[0].name == NEW && states[1].name == IN_PROGRESS && states[2].name == COMPLETED;
    assert FindState(states, COMPLETED) == states[2];
  }
}
