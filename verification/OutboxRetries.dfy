/** What the protocol's steps do to a row's own fields, and what dead-lettering therefore means: as
    many failed deliveries as were allowed, since the row was staged or last re-driven. */
module OutboxRetries {
  import opened Wrappers
  import opened Outbox
  import opened OutboxProtocol
  import opened OutboxSafety

  /** A delivery settles a copy of the row: published now, or one retry on and dead-lettered now only
      if that was the last. The table is not touched before the commit. */
  lemma DeliverMeans(c: Config, s: Db, r: RelayId, dispatch: Dispatch, now: int, next: Db)
    requires Inv(c, s) && Do(c, s, Deliver(r, dispatch, now)) == Some(next)
    ensures
      var batch, k := s.relays[r].batch, |s.relays[r].outcomes|;
      && k < |batch| && batch[k] in s.rows && next.rows == s.rows
      && next.relays[r].batch == batch && next.relays[r].outcomes == s.relays[r].outcomes + [next.relays[r].outcomes[k]]
      && if dispatch.Completed? then Published(s.rows[batch[k]], next.relays[r].outcomes[k], now)
         else Failed(s.rows[batch[k]], next.relays[r].outcomes[k], c.maxRetries, now)
  {
    hide Inv, Settle, Published, Failed, Ran;
    var relay := s.relays[r];
    SettleMeans(s.rows[relay.batch[|relay.outcomes|]], dispatch.Completed?, c.maxRetries, now);
  }

  /** The commit writes each claimed row as its delivery settled it, and no other row. */
  lemma CommitMeans(c: Config, s: Db, r: RelayId, next: Db)
    requires Inv(c, s) && Do(c, s, Commit(r)) == Some(next)
    ensures
      var relay := s.relays[r];
      && |relay.outcomes| == |relay.batch| && next.rows.Keys == s.rows.Keys
      && (forall i :: 0 <= i < |relay.batch| ==> relay.batch[i] in next.rows && next.rows[relay.batch[i]] == relay.outcomes[i])
      && (forall id :: id in s.rows && id !in relay.batch ==> next.rows[id] == s.rows[id])
  {
    hide OutcomeOk, TableOk, NothingLost, ClaimsDisjoint;
    var relay := s.relays[r];
    assert RelayOk(c, s, relay);
    forall id ensures id in next.rows <==> id in s.rows {
      WrittenBackAt(s.rows, relay, id);
      if id in relay.batch { var i :| 0 <= i < |relay.batch| && relay.batch[i] == id; }
    }
    forall id | id in s.rows && id !in relay.batch ensures next.rows[id] == s.rows[id] { WrittenBackAt(s.rows, relay, id); }
    forall i | 0 <= i < |relay.batch| ensures next.rows[relay.batch[i]] == relay.outcomes[i] { WrittenBackAt(s.rows, relay, relay.batch[i]); }
  }

  /** A prune takes only rows published at the cutoff or before, never a pending or dead-lettered one. */
  lemma PurgeMeans(c: Config, s: Db, ids: set<nat>, cutoff: int, next: Db)
    requires Do(c, s, Purge(ids, cutoff)) == Some(next)
    ensures forall id :: id in ids ==>
      id in s.rows && s.rows[id].publishedAt.Some? && s.rows[id].deadLetteredAt.None? && s.rows[id].publishedAt.value <= cutoff
    ensures next.rows == s.rows - ids
  {
    hide PrunableIds;
    EligibleMeans(s.rows, cutoff);
  }

  // ----- Failures since the last start -----

  /** The failed deliveries of a row counted over one step; staging or re-driving it starts again. */
  function Tally(s: Db, step: Step, id: nat, n: nat): nat {
    match step
    case Stage(x, _) => if x == id then 0 else n
    case Redrive(x) => if x == id then 0 else n
    case Deliver(r, dispatch, _) =>
      if r in s.relays && |s.relays[r].outcomes| < |s.relays[r].batch| && s.relays[r].batch[|s.relays[r].outcomes|] == id
        && !dispatch.Completed?
      then n + 1 else n
    case _ => n
  }

  function FailuresSince(c: Config, s: Db, steps: seq<Step>, id: nat, n: nat): nat
    decreases |steps|
  {
    if steps == [] || Do(c, s, steps[0]).None? then n
    else FailuresSince(c, Do(c, s, steps[0]).value, steps[1..], id, Tally(s, steps[0], id, n))
  }

  /** Neither the row nor a settled copy of it counts more failures than there were. */
  predicate Tallied(s: Db, id: nat, n: nat) {
    && (id in s.rows ==> s.rows[id].retryCount <= n)
    && forall r, i :: r in s.relays && 0 <= i < |s.relays[r].outcomes| && i < |s.relays[r].batch| && s.relays[r].batch[i] == id ==>
         s.relays[r].outcomes[i].retryCount <= n
  }

  lemma DeliverTallies(c: Config, s: Db, r: RelayId, dispatch: Dispatch, now: int, next: Db, id: nat, n: nat)
    requires Inv(c, s) && Tallied(s, id, n) && Do(c, s, Deliver(r, dispatch, now)) == Some(next)
    ensures Tallied(next, id, Tally(s, Deliver(r, dispatch, now), id, n))
  {
    hide Do, Inv;
    DeliverMeans(c, s, r, dispatch, now, next);
    DeliverStands(c, s, r, dispatch, now, next);
  }

  lemma CommitTallies(c: Config, s: Db, r: RelayId, next: Db, id: nat, n: nat)
    requires Inv(c, s) && Tallied(s, id, n) && Do(c, s, Commit(r)) == Some(next)
    ensures Tallied(next, id, n)
  {
    hide Inv, WrittenBack;
    CommitMeans(c, s, r, next);
    var relay := s.relays[r];
    if id in relay.batch { var i :| 0 <= i < |relay.batch| && relay.batch[i] == id; }
  }

  /** A row that starts again is in no batch. */
  lemma NotHeld(c: Config, s: Db, id: nat)
    requires Inv(c, s) && (id !in s.rows || !Deliverable(s.rows[id]))
    ensures forall r, i :: r in s.relays && 0 <= i < |s.relays[r].batch| ==> s.relays[r].batch[i] != id
  {
    forall r, i | r in s.relays && 0 <= i < |s.relays[r].batch| ensures s.relays[r].batch[i] != id {
      assert RelayOk(c, s, s.relays[r]);
    }
  }

  lemma RestartTallies(c: Config, s: Db, step: Step, next: Db, id: nat, n: nat)
    requires Inv(c, s) && Tallied(s, id, n) && Do(c, s, step) == Some(next) && (step.Stage? || step.Redrive?)
    ensures Tallied(next, id, Tally(s, step, id, n))
  {
    hide RelaysOk, NothingLost, ClaimsDisjoint;
    if step.id == id { NotHeld(c, s, id); }
  }

  lemma OtherTallies(c: Config, s: Db, step: Step, next: Db, id: nat, n: nat)
    requires Tallied(s, id, n) && Do(c, s, step) == Some(next) && (step.Claim? || step.Crash? || step.Purge?)
    ensures Tallied(next, id, n)
  {
    hide FirstOf, Claimable, PrunableIds;
  }

  lemma StepTallies(c: Config, s: Db, step: Step, next: Db, id: nat, n: nat)
    requires Inv(c, s) && Tallied(s, id, n) && Do(c, s, step) == Some(next)
    ensures Tallied(next, id, Tally(s, step, id, n))
  {
    hide Do, Inv, Tallied;
    match step
    case Deliver(r, dispatch, now) => DeliverTallies(c, s, r, dispatch, now, next, id, n);
    case Commit(r) => CommitTallies(c, s, r, next, id, n);
    case Stage(_, _) => RestartTallies(c, s, step, next, id, n);
    case Redrive(_) => RestartTallies(c, s, step, next, id, n);
    case _ => OtherTallies(c, s, step, next, id, n);
  }

  lemma {:induction false} RunTallies(c: Config, s: Db, steps: seq<Step>, id: nat, n: nat)
    requires c.maxRetries > 0 && Inv(c, s) && Tallied(s, id, n) && Run(c, s, steps).Some?
    ensures Tallied(Run(c, s, steps).value, id, FailuresSince(c, s, steps, id, n))
    decreases |steps|
  {
    hide Do, Inv, Tallied;
    if steps != [] {
      var next := Do(c, s, steps[0]).value;
      StepTallies(c, s, steps[0], next, id, n);
      StepKeeps(c, s, steps[0], next);
      RunTallies(c, next, steps[1..], id, Tally(s, steps[0], id, n));
    }
  }

  /** No row is given up early: in every run a row that is dead-lettered has failed `max_retries`
      deliveries since it was staged or last re-driven, and a row never counts a failure there was
      not. */
  lemma DeadMeansExhausted(c: Config, steps: seq<Step>, s: Db, id: nat)
    requires c.maxRetries > 0 && Run(c, Init, steps) == Some(s) && id in s.rows
    ensures s.rows[id].retryCount <= FailuresSince(c, Init, steps, id, 0)
    ensures s.rows[id].deadLetteredAt.Some? ==> FailuresSince(c, Init, steps, id, 0) >= c.maxRetries
  {
    hide Do, Run, Inv;
    assert Inv(c, Init) by { InitInv(c); }
    assert Tallied(Init, id, 0);
    RunTallies(c, Init, steps, id, 0);
    ClaimsAndRetries(c, s);
  }

  lemma InitInv(c: Config)
    ensures Inv(c, Init)
  {
  }
}
