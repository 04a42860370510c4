/** The outbox as a distributed protocol: producers commit rows, any number of relays claim disjoint
    batches (FOR UPDATE SKIP LOCKED), dispatch them and commit their outcomes once per batch; a
    prune and an operator run alongside, and a relay may die at any point. Handler invocations
    cannot be rolled back, so the log of attempts survives every crash. */
module OutboxProtocol {
  import opened Wrappers
  import opened Outbox

  type RelayId = nat

  datatype Config = Config(registry: set<string>, listeners: map<string, seq<Handler>>, maxRetries: nat)

  /** How one dispatch ended. */
  datatype Dispatch = Completed | RaisedAt(handler: nat) | Unreadable

  /** The handlers that ran to completion for a row, and whether the dispatch returned. */
  datatype Attempt = Attempt(row: nat, ran: seq<Handler>, completed: bool)

  /** A claimed batch, and the settled copies of the rows processed so far. */
  datatype Relay = Relay(batch: seq<nat>, outcomes: seq<Row>)

  datatype Db = Db(
    rows: map<nat, Row>,           // the outbox table
    relays: map<RelayId, Relay>,   // polls in progress
    staged: map<nat, string>,      // every row ever committed by a producer, with its event type
    purged: set<nat>,
    attempts: seq<Attempt>,
    crashes: nat)

  const Init := Db(map[], map[], map[], {}, [], 0)

  datatype Step =
    | Stage(id: nat, eventType: string)
    | Claim(r: RelayId, size: nat)
    | Deliver(r: RelayId, dispatch: Dispatch, now: int)
    | Commit(r: RelayId)
    | Crash(r: RelayId)
    | Purge(ids: set<nat>, cutoff: int)
    | Redrive(id: nat)

  /** Rows some poll holds locked. */
  function Locked(relays: map<RelayId, Relay>): set<nat> {
    set r, id | r in relays && id in relays[r].batch :: id
  }

  function Claimable(s: Db): set<nat> {
    DeliverableIds(s.rows) - Locked(s.relays)
  }

  /** What a dispatch ran, when it can end that way for this event type. */
  function Ran(c: Config, eventType: string, dispatch: Dispatch): Option<seq<Handler>> {
    var handlers := HandlersOf(c.listeners, eventType);
    match dispatch
    case Unreadable => Some([])
    case Completed => if eventType in c.registry then Some(handlers) else None
    case RaisedAt(i) => if eventType in c.registry && i < |handlers| then Some(handlers[..i]) else None
  }

  function DoDeliver(c: Config, s: Db, r: RelayId, dispatch: Dispatch, now: int): Option<Db>
    requires r in s.relays
  {
    var relay := s.relays[r];
    var k := |relay.outcomes|;
    if k >= |relay.batch| || relay.batch[k] !in s.rows then None
    else
      var id := relay.batch[k];
      var row := s.rows[id];
      match Ran(c, row.eventType, dispatch)
      case None => None
      case Some(ran) =>
        var settled := Settle(row, dispatch.Completed?, c.maxRetries, now);
        Some(s.(relays := s.relays[r := Relay(relay.batch, relay.outcomes + [settled])],
                attempts := s.attempts + [Attempt(id, ran, dispatch.Completed?)]))
  }

  /** The table with a finished batch written back. */
  function WrittenBack(rows: map<nat, Row>, relay: Relay): map<nat, Row>
    decreases |relay.batch|
  {
    if relay.batch == [] || relay.outcomes == [] then rows
    else WrittenBack(rows, Relay(relay.batch[1..], relay.outcomes[1..]))[relay.batch[0] := relay.outcomes[0]]
  }

  function Do(c: Config, s: Db, step: Step): Option<Db> {
    match step
    case Stage(id, eventType) =>
      if id in s.staged then None
      else Some(s.(rows := s.rows[id := Pending(eventType)], staged := s.staged[id := eventType]))
    case Claim(r, size) =>
      if r in s.relays then None else Some(s.(relays := s.relays[r := Relay(FirstOf(Claimable(s), size), [])]))
    case Deliver(r, dispatch, now) => if r !in s.relays then None else DoDeliver(c, s, r, dispatch, now)
    case Commit(r) =>
      if r !in s.relays || |s.relays[r].outcomes| != |s.relays[r].batch| then None
      else Some(s.(rows := WrittenBack(s.rows, s.relays[r]), relays := s.relays - {r}))
    case Crash(r) =>
      if r !in s.relays then None else Some(s.(relays := s.relays - {r}, crashes := s.crashes + 1))
    case Purge(ids, cutoff) =>
      if !(ids <= PrunableIds(s.rows, cutoff)) then None
      else Some(s.(rows := s.rows - ids, purged := s.purged + ids))
    case Redrive(id) =>
      if id !in s.rows || s.rows[id].deadLetteredAt.None? then None
      else Some(s.(rows := s.rows[id := s.rows[id].(deadLetteredAt := None, retryCount := 0)]))
  }

  function Run(c: Config, s: Db, steps: seq<Step>): Option<Db>
    decreases |steps|
  {
    if steps == [] then Some(s)
    else
      match Do(c, s, steps[0])
      case None => None
      case Some(next) => Run(c, next, steps[1..])
  }

  ghost predicate Reached(c: Config, s: Db) {
    exists steps :: Run(c, Init, steps) == Some(s)
  }

  // ----- The invariant -----

  /** Exactly one of pending, published and dead-lettered, with the retry count that goes with it. */
  predicate RowOk(c: Config, row: Row) {
    if row.deadLetteredAt.Some? then row.publishedAt.None? && row.retryCount == c.maxRetries
    else row.retryCount < c.maxRetries
  }

  predicate TableOk(c: Config, s: Db) {
    && s.rows.Keys + s.purged == s.staged.Keys && s.rows.Keys !! s.purged
    && forall id :: id in s.rows ==> RowOk(c, s.rows[id]) && s.rows[id].eventType == s.staged[id]
  }

  /** Some attempt ran every subscribed handler, in subscription order, and returned. */
  predicate FullyDelivered(c: Config, s: Db, id: nat) {
    id in s.staged && Attempt(id, HandlersOf(c.listeners, s.staged[id]), true) in s.attempts
  }

  predicate RelayOk(c: Config, s: Db, relay: Relay) {
    && |relay.outcomes| <= |relay.batch|
    && (forall i, j :: 0 <= i < j < |relay.batch| ==> relay.batch[i] != relay.batch[j])
    && (forall i :: 0 <= i < |relay.batch| ==> relay.batch[i] in s.rows && Deliverable(s.rows[relay.batch[i]]))
    && (forall i :: 0 <= i < |relay.outcomes| ==>
          OutcomeOk(c, s, relay.batch[i], relay.outcomes[i]))
  }

  predicate OutcomeOk(c: Config, s: Db, id: nat, outcome: Row) {
    && RowOk(c, outcome) && id in s.rows && outcome.eventType == s.rows[id].eventType
    && (outcome.publishedAt.Some? ==> FullyDelivered(c, s, id))
  }

  predicate RelaysOk(c: Config, s: Db) {
    forall r :: r in s.relays ==> RelayOk(c, s, s.relays[r])
  }

  /** No row is held by two relays. */
  predicate ClaimsDisjoint(relays: map<RelayId, Relay>) {
    forall r, q, id :: r in relays && q in relays && r != q && id in relays[r].batch ==> id !in relays[q].batch
  }

  predicate NothingLost(c: Config, s: Db) {
    && (forall id :: id in s.rows && s.rows[id].publishedAt.Some? ==> FullyDelivered(c, s, id))
    && (forall id :: id in s.purged ==> FullyDelivered(c, s, id))
  }

  predicate Inv(c: Config, s: Db) {
    TableOk(c, s) && RelaysOk(c, s) && ClaimsDisjoint(s.relays) && NothingLost(c, s)
  }

  // ----- Writing a batch back -----

  lemma {:induction false} WrittenBackAt(rows: map<nat, Row>, relay: Relay, id: nat)
    requires |relay.outcomes| == |relay.batch|
    requires forall i, j :: 0 <= i < j < |relay.batch| ==> relay.batch[i] != relay.batch[j]
    requires forall i :: 0 <= i < |relay.batch| ==> relay.batch[i] in rows
    ensures id in WrittenBack(rows, relay) <==> id in rows
    ensures id in rows && id !in relay.batch ==> WrittenBack(rows, relay)[id] == rows[id]
    ensures forall i :: 0 <= i < |relay.batch| && relay.batch[i] == id ==> WrittenBack(rows, relay)[id] == relay.outcomes[i]
    decreases |relay.batch|
  {
    if relay.batch != [] {
      var rest := Relay(relay.batch[1..], relay.outcomes[1..]);
      WrittenBackAt(rows, rest, id);
      forall i | 0 <= i < |relay.batch| && relay.batch[i] == id
        ensures WrittenBack(rows, relay)[id] == relay.outcomes[i]
      {
        if i > 0 { assert rest.batch[i - 1] == id && rest.outcomes[i - 1] == relay.outcomes[i]; }
      }
    }
  }

  // ----- Steps keep the invariant -----

  lemma MoreAttempts(c: Config, s: Db, next: Db, id: nat)
    requires s.attempts <= next.attempts && (id in s.staged ==> id in next.staged && next.staged[id] == s.staged[id])
    ensures FullyDelivered(c, s, id) ==> FullyDelivered(c, next, id)
  {
  }

  lemma StageKeeps(c: Config, s: Db, id: nat, eventType: string, next: Db)
    requires Inv(c, s) && c.maxRetries > 0 && Do(c, s, Stage(id, eventType)) == Some(next)
    ensures Inv(c, next)
  {
    forall x ensures FullyDelivered(c, s, x) ==> FullyDelivered(c, next, x) { MoreAttempts(c, s, next, x); }
    forall r | r in next.relays ensures RelayOk(c, next, next.relays[r]) {
      assert RelayOk(c, s, s.relays[r]);
      forall i | 0 <= i < |s.relays[r].outcomes| ensures OutcomeOk(c, next, s.relays[r].batch[i], s.relays[r].outcomes[i]) {
        assert OutcomeOk(c, s, s.relays[r].batch[i], s.relays[r].outcomes[i]);
      }
    }
  }

  lemma ClaimKeeps(c: Config, s: Db, r: RelayId, size: nat, next: Db)
    requires Inv(c, s) && Do(c, s, Claim(r, size)) == Some(next)
    ensures Inv(c, next)
  {
    var batch := FirstOf(Claimable(s), size);
    forall q | q in next.relays ensures RelayOk(c, next, next.relays[q]) {
      if q == r {
        forall i | 0 <= i < |batch| ensures batch[i] in s.rows && Deliverable(s.rows[batch[i]]) {
          assert batch[i] in batch;
        }
      } else {
        SameTable(c, s, next, s.relays[q]);
      }
    }
    forall q, id | q in s.relays && id in batch ensures id !in s.relays[q].batch {
      assert id !in Locked(s.relays);
    }
    forall id ensures FullyDelivered(c, s, id) ==> FullyDelivered(c, next, id) { }
  }

  lemma SameTable(c: Config, s: Db, next: Db, relay: Relay)
    requires RelayOk(c, s, relay) && next.rows == s.rows && next.staged == s.staged && s.attempts <= next.attempts
    ensures RelayOk(c, next, relay)
  {
    forall i | 0 <= i < |relay.outcomes| ensures OutcomeOk(c, next, relay.batch[i], relay.outcomes[i]) {
      assert OutcomeOk(c, s, relay.batch[i], relay.outcomes[i]);
      MoreAttempts(c, s, next, relay.batch[i]);
    }
  }

  /** The outcome a delivery settles is in order, and the log has its attempt. */
  lemma DeliverSettles(c: Config, s: Db, r: RelayId, dispatch: Dispatch, now: int, next: Db)
    requires Inv(c, s) && Do(c, s, Deliver(r, dispatch, now)) == Some(next)
    ensures
      var relay := s.relays[r];
      var k := |relay.outcomes|;
      && k < |relay.batch| && relay.batch[k] in s.rows
      && next.relays[r].batch == relay.batch && |next.relays[r].outcomes| == k + 1 && next.relays[r].outcomes[..k] == relay.outcomes
      && OutcomeOk(c, next, relay.batch[k], next.relays[r].outcomes[k])
  {
    hide NothingLost, ClaimsDisjoint;
    var relay := s.relays[r];
    var k := |relay.outcomes|;
    assert RelayOk(c, s, relay);
    assert dispatch.Completed? ==> next.attempts[|s.attempts|] == Attempt(relay.batch[k], HandlersOf(c.listeners, s.staged[relay.batch[k]]), true);
  }

  /** A delivery touches its own relay and the log; the table and the claims stand. */
  lemma DeliverStands(c: Config, s: Db, r: RelayId, dispatch: Dispatch, now: int, next: Db)
    requires Inv(c, s) && Do(c, s, Deliver(r, dispatch, now)) == Some(next)
    ensures TableOk(c, next) && NothingLost(c, next) && ClaimsDisjoint(next.relays)
    ensures r in s.relays && next.rows == s.rows && next.staged == s.staged && s.attempts <= next.attempts && next.relays == s.relays[r := next.relays[r]]
    ensures forall x :: FullyDelivered(c, s, x) ==> FullyDelivered(c, next, x)
  {
    hide RowOk, Settle, RelayOk, Ran;
    forall x ensures FullyDelivered(c, s, x) ==> FullyDelivered(c, next, x) { MoreAttempts(c, s, next, x); }
    assert forall q :: q in next.relays ==> next.relays[q].batch == s.relays[q].batch;
  }

  lemma DeliverKeeps(c: Config, s: Db, r: RelayId, dispatch: Dispatch, now: int, next: Db)
    requires Inv(c, s) && Do(c, s, Deliver(r, dispatch, now)) == Some(next)
    ensures Inv(c, next)
  {
    hide Do, OutcomeOk, FullyDelivered, TableOk, NothingLost, ClaimsDisjoint;
    DeliverStands(c, s, r, dispatch, now, next);
    var relay, grown := s.relays[r], next.relays[r];
    assert RelayOk(c, s, relay);
    DeliverSettles(c, s, r, dispatch, now, next);
    SameTable(c, s, next, relay);
    assert RelayOk(c, next, grown);
    forall q | q in next.relays && q != r ensures RelayOk(c, next, next.relays[q]) { SameTable(c, s, next, s.relays[q]); }
  }

  lemma CommitKeeps(c: Config, s: Db, r: RelayId, next: Db)
    requires Inv(c, s) && Do(c, s, Commit(r)) == Some(next)
    ensures Inv(c, next)
  {
    var relay := s.relays[r];
    assert RelayOk(c, s, relay);
    forall id ensures id in next.rows <==> id in s.rows { WrittenBackAt(s.rows, relay, id); }
    assert next.rows.Keys == s.rows.Keys;
    forall id | id in next.rows
      ensures RowOk(c, next.rows[id]) && next.rows[id].eventType == s.staged[id]
      ensures next.rows[id].publishedAt.Some? ==> FullyDelivered(c, s, id)
    {
      CommittedRow(c, s, r, id);
    }
    forall q | q in next.relays ensures RelayOk(c, next, next.relays[q]) { OtherRelayKeeps(c, s, r, q, next); }
  }

  lemma CommittedRow(c: Config, s: Db, r: RelayId, id: nat)
    requires Inv(c, s) && r in s.relays && |s.relays[r].outcomes| == |s.relays[r].batch| && id in s.rows
    ensures id in WrittenBack(s.rows, s.relays[r])
    ensures
      var row := WrittenBack(s.rows, s.relays[r])[id];
      && RowOk(c, row) && row.eventType == s.staged[id]
      && (row.publishedAt.Some? ==> FullyDelivered(c, s, id))
  {
    var relay := s.relays[r];
    assert RelayOk(c, s, relay);
    WrittenBackAt(s.rows, relay, id);
    if id in relay.batch {
      var i :| 0 <= i < |relay.batch| && relay.batch[i] == id;
      assert OutcomeOk(c, s, id, relay.outcomes[i]);
    }
  }

  lemma OtherRelayKeeps(c: Config, s: Db, r: RelayId, q: RelayId, next: Db)
    requires Inv(c, s) && Do(c, s, Commit(r)) == Some(next) && q in s.relays && q != r
    ensures RelayOk(c, next, s.relays[q])
  {
    var relay, other := s.relays[r], s.relays[q];
    assert RelayOk(c, s, relay) && RelayOk(c, s, other);
    forall i | 0 <= i < |other.batch| ensures other.batch[i] in next.rows && next.rows[other.batch[i]] == s.rows[other.batch[i]] {
      assert other.batch[i] in other.batch;
      WrittenBackAt(s.rows, relay, other.batch[i]);
    }
    forall i | 0 <= i < |other.outcomes| ensures OutcomeOk(c, next, other.batch[i], other.outcomes[i]) {
      assert OutcomeOk(c, s, other.batch[i], other.outcomes[i]);
    }
  }

  lemma PurgeKeeps(c: Config, s: Db, ids: set<nat>, cutoff: int, next: Db)
    requires Inv(c, s) && Do(c, s, Purge(ids, cutoff)) == Some(next)
    ensures Inv(c, next)
  {
    forall id | id in ids ensures id in s.rows && s.rows[id].publishedAt.Some? { assert id in PrunableIds(s.rows, cutoff); }
    assert next.rows.Keys + next.purged == s.staged.Keys;
    RowsNarrow(c, s, next);
  }

  /** A step that only touches rows no relay can hold leaves every relay in order. */
  lemma RowsNarrow(c: Config, s: Db, next: Db)
    requires RelaysOk(c, s) && next.staged == s.staged && next.attempts == s.attempts
    requires forall r :: r in next.relays ==> r in s.relays && next.relays[r] == s.relays[r]
    requires forall id :: id in s.rows && Deliverable(s.rows[id]) ==> id in next.rows && next.rows[id] == s.rows[id]
    ensures RelaysOk(c, next)
  {
    forall r | r in next.relays ensures RelayOk(c, next, next.relays[r]) {
      var relay := s.relays[r];
      assert RelayOk(c, s, relay);
      forall i | 0 <= i < |relay.outcomes| ensures OutcomeOk(c, next, relay.batch[i], relay.outcomes[i]) {
        assert OutcomeOk(c, s, relay.batch[i], relay.outcomes[i]);
      }
    }
  }

  lemma StepKeeps(c: Config, s: Db, step: Step, next: Db)
    requires Inv(c, s) && c.maxRetries > 0 && Do(c, s, step) == Some(next)
    ensures Inv(c, next)
  {
    hide Inv;
    match step
    case Stage(id, eventType) => StageKeeps(c, s, id, eventType, next);
    case Claim(r, size) => ClaimKeeps(c, s, r, size, next);
    case Deliver(r, dispatch, now) => DeliverKeeps(c, s, r, dispatch, now, next);
    case Commit(r) => CommitKeeps(c, s, r, next);
    case Crash(r) => CrashKeeps(c, s, r, next);
    case Purge(ids, cutoff) => PurgeKeeps(c, s, ids, cutoff, next);
    case Redrive(id) => RedriveKeeps(c, s, id, next);
  }

  lemma CrashKeeps(c: Config, s: Db, r: RelayId, next: Db)
    requires Inv(c, s) && Do(c, s, Crash(r)) == Some(next)
    ensures Inv(c, next)
  {
    RowsNarrow(c, s, next);
  }

  lemma RedriveKeeps(c: Config, s: Db, id: nat, next: Db)
    requires Inv(c, s) && c.maxRetries > 0 && Do(c, s, Redrive(id)) == Some(next)
    ensures Inv(c, next)
  {
    assert next.rows.Keys == s.rows.Keys;
    RowsNarrow(c, s, next);
  }

  lemma {:induction false} RunKeeps(c: Config, s: Db, steps: seq<Step>)
    requires Inv(c, s) && c.maxRetries > 0 && Run(c, s, steps).Some?
    ensures Inv(c, Run(c, s, steps).value)
    decreases |steps|
  {
    hide Inv, Do;
    if steps != [] {
      var next := Do(c, s, steps[0]).value;
      StepKeeps(c, s, steps[0], next);
      RunKeeps(c, next, steps[1..]);
    }
  }

  lemma ReachedInv(c: Config, s: Db)
    requires c.maxRetries > 0 && Reached(c, s)
    ensures Inv(c, s)
  {
    var steps :| Run(c, Init, steps) == Some(s);
    RunKeeps(c, Init, steps);
  }
}
