/** How long a row can wait. With one relay polling and nothing older arriving, every poll that
    passes a row by spends a whole batch of the retries left to older rows. */
module OutboxProgress {
  import opened Sets
  import opened Outbox

  /** Rows in order for a given ceiling: whatever is still deliverable has a retry left. */
  predicate RetriesLeft(rows: map<nat, Row>, maxRetries: nat) {
    forall id :: id in rows && Deliverable(rows[id]) ==> rows[id].retryCount < maxRetries
  }

  function CreditOf(rows: map<nat, Row>, maxRetries: nat, id: nat): nat {
    if id in rows && Deliverable(rows[id]) && rows[id].retryCount < maxRetries then maxRetries - rows[id].retryCount else 0
  }

  /** The sum over the ids of max_retries - retry_count, for those still deliverable. */
  ghost function Credit(rows: map<nat, Row>, maxRetries: nat, ids: set<nat>): nat
    decreases ids
  {
    if ids == {} then 0 else
      var id :| id in ids;
      CreditOf(rows, maxRetries, id) + Credit(rows, maxRetries, ids - {id})
  }

  lemma {:induction false} CreditSplit(rows: map<nat, Row>, maxRetries: nat, ids: set<nat>, id: nat)
    requires id in ids
    ensures Credit(rows, maxRetries, ids) == CreditOf(rows, maxRetries, id) + Credit(rows, maxRetries, ids - {id})
    decreases ids
  {
    var first :| first in ids && Credit(rows, maxRetries, ids) == CreditOf(rows, maxRetries, first) + Credit(rows, maxRetries, ids - {first});
    if first != id {
      CreditSplit(rows, maxRetries, ids - {first}, id);
      CreditSplit(rows, maxRetries, ids - {id}, first);
      assert ids - {first} - {id} == ids - {id} - {first};
    }
  }

  /** Over fixed ids, spending one credit on each of `spent` and adding none anywhere. */
  lemma {:induction false} CreditSpent(before: map<nat, Row>, after: map<nat, Row>, maxRetries: nat, ids: set<nat>, spent: set<nat>)
    requires spent <= ids
    requires forall id :: id in ids ==> CreditOf(after, maxRetries, id) <= CreditOf(before, maxRetries, id)
    requires forall id :: id in spent ==> CreditOf(after, maxRetries, id) < CreditOf(before, maxRetries, id)
    ensures Credit(after, maxRetries, ids) + |spent| <= Credit(before, maxRetries, ids)
    decreases ids
  {
    if ids != {} {
      var id :| id in ids;
      CreditSplit(before, maxRetries, ids, id);
      CreditSplit(after, maxRetries, ids, id);
      CreditSpent(before, after, maxRetries, ids - {id}, spent - {id});
      assert |spent - {id}| >= |spent| - 1 && (id !in spent ==> spent - {id} == spent);
    }
  }

  // ----- Rounds of one relay -----

  /** Rows committed since the last poll, and what this poll's dispatches come to. */
  datatype Round = Round(arrivals: map<nat, Row>, delivered: set<nat>, now: int)

  /** Fresh rows only, none claimed ahead of `row`. */
  predicate NothingOlder(rows: map<nat, Row>, round: Round, row: nat) {
    forall id :: id in round.arrivals ==> id !in rows && row < id && round.arrivals[id] == Pending(round.arrivals[id].eventType)
  }

  function Table(rows: map<nat, Row>, round: Round): map<nat, Row> {
    rows + round.arrivals
  }

  function After(rows: map<nat, Row>, round: Round, size: nat, maxRetries: nat): map<nat, Row> {
    Polled(Table(rows, round), size, maxRetries, round.delivered, round.now)
  }

  predicate Claims(rows: map<nat, Row>, round: Round, size: nat, row: nat) {
    row in Batch(Table(rows, round), size)
  }

  /** Nothing is committed ahead of the row while it waits. */
  predicate Orderly(rows: map<nat, Row>, rounds: seq<Round>, size: nat, maxRetries: nat, row: nat)
    decreases |rounds|
  {
    rounds != [] ==>
      && NothingOlder(rows, rounds[0], row)
      && Orderly(After(rows, rounds[0], size, maxRetries), rounds[1..], size, maxRetries, row)
  }

  /** Some round of the run claims the row. */
  predicate Served(rows: map<nat, Row>, rounds: seq<Round>, size: nat, maxRetries: nat, row: nat)
    decreases |rounds|
  {
    && rounds != []
    && (Claims(rows, rounds[0], size, row)
        || Served(After(rows, rounds[0], size, maxRetries), rounds[1..], size, maxRetries, row))
  }

  /** The deliverable rows the poll takes before this one. */
  function Older(rows: map<nat, Row>, row: nat): set<nat> {
    set id | id in DeliverableIds(rows) && id < row
  }

  ghost function Members(ids: seq<nat>): set<nat> {
    set id | id in ids
  }

  lemma {:induction false} DistinctMembers(ids: seq<nat>)
    requires forall i, j :: 0 <= i < j < |ids| ==> ids[i] < ids[j]
    ensures |Members(ids)| == |ids|
  {
    if ids != [] {
      DistinctMembers(ids[1..]);
      assert ids[0] !in ids[1..];
      assert Members(ids) == {ids[0]} + Members(ids[1..]);
    }
  }

  /** Settling a batch of deliverable rows spends a credit on each and adds none anywhere. */
  lemma SettleSpends(rows: map<nat, Row>, batch: seq<nat>, maxRetries: nat, delivered: set<nat>, now: int)
    requires RetriesLeft(rows, maxRetries) && forall id :: id in batch ==> id in rows && Deliverable(rows[id])
    ensures
      var next := Settled(rows, batch, maxRetries, delivered, now);
      && RetriesLeft(next, maxRetries) && DeliverableIds(next) <= DeliverableIds(rows)
      && (forall id :: CreditOf(next, maxRetries, id) <= CreditOf(rows, maxRetries, id))
      && (forall id :: id in Members(batch) ==> CreditOf(next, maxRetries, id) < CreditOf(rows, maxRetries, id))
  {
  }

  /** The credit of a set of ids that holds the batch falls by the size of the batch. */
  lemma PollSpendsOn(rows: map<nat, Row>, size: nat, maxRetries: nat, delivered: set<nat>, now: int, ids: set<nat>)
    requires RetriesLeft(rows, maxRetries) && forall id :: id in Batch(rows, size) ==> id in ids
    ensures
      var next := Polled(rows, size, maxRetries, delivered, now);
      && RetriesLeft(next, maxRetries) && DeliverableIds(next) <= DeliverableIds(rows)
      && Credit(next, maxRetries, ids) + |Batch(rows, size)| <= Credit(rows, maxRetries, ids)
  {
    hide Settled, CreditOf, Credit, RetriesLeft;
    var batch, next := Batch(rows, size), Polled(rows, size, maxRetries, delivered, now);
    assert forall id :: id in batch ==> id in DeliverableIds(rows);
    SettleSpends(rows, batch, maxRetries, delivered, now);
    DistinctMembers(batch);
    CreditSpent(rows, next, maxRetries, ids, Members(batch));
  }

  /** A poll that passes a deliverable row by has taken a full batch of older rows. */
  lemma PassedByTakesOlder(rows: map<nat, Row>, size: nat, row: nat)
    requires row in DeliverableIds(rows) && row !in Batch(rows, size)
    ensures |Batch(rows, size)| == size
    ensures forall id :: id in Batch(rows, size) ==> id in Older(rows, row)
  {
    var ids, batch := DeliverableIds(rows), Batch(rows, size);
    DistinctMembers(batch);
    assert Members(batch) <= ids - {row};
    SubsetSize(Members(batch), ids - {row});
  }

  lemma FreshKeepRetries(rows: map<nat, Row>, round: Round, maxRetries: nat, row: nat)
    requires RetriesLeft(rows, maxRetries) && maxRetries > 0 && NothingOlder(rows, round, row)
    ensures RetriesLeft(Table(rows, round), maxRetries)
  {
  }

  /** One round that passes the row by: the older rows' credit falls by a batch. */
  lemma RoundSpends(rows: map<nat, Row>, round: Round, size: nat, maxRetries: nat, row: nat)
    requires RetriesLeft(rows, maxRetries) && maxRetries > 0
    requires row in rows && Deliverable(rows[row]) && NothingOlder(rows, round, row) && !Claims(rows, round, size, row)
    ensures
      var next := After(rows, round, size, maxRetries);
      && row in next && Deliverable(next[row]) && RetriesLeft(next, maxRetries)
      && Credit(next, maxRetries, Older(next, row)) + size <= Credit(rows, maxRetries, Older(rows, row))
  {
    hide RetriesLeft, Credit, Settle;
    var table, next, older := Table(rows, round), After(rows, round, size, maxRetries), Older(rows, row);
    FreshKeepRetries(rows, round, maxRetries, row);
    TableKeepsOlder(rows, round, row);
    PassedByTakesOlder(table, size, row);
    PollSpendsOn(table, size, maxRetries, round.delivered, round.now, older);
    SameCredit(rows, table, maxRetries, older);
    assert Older(next, row) <= older;
    SubsetCredit(next, maxRetries, Older(next, row), older);
  }

  lemma TableKeepsOlder(rows: map<nat, Row>, round: Round, row: nat)
    requires NothingOlder(rows, round, row)
    ensures Older(Table(rows, round), row) == Older(rows, row)
    ensures forall id :: id in rows ==> Table(rows, round)[id] == rows[id]
  {
  }

  lemma {:induction false} SameCredit(a: map<nat, Row>, b: map<nat, Row>, maxRetries: nat, ids: set<nat>)
    requires forall id :: id in ids ==> CreditOf(a, maxRetries, id) == CreditOf(b, maxRetries, id)
    ensures Credit(a, maxRetries, ids) == Credit(b, maxRetries, ids)
    decreases ids
  {
    if ids != {} {
      var id :| id in ids;
      CreditSplit(a, maxRetries, ids, id);
      CreditSplit(b, maxRetries, ids, id);
      SameCredit(a, b, maxRetries, ids - {id});
    }
  }

  lemma {:induction false} SubsetCredit(rows: map<nat, Row>, maxRetries: nat, a: set<nat>, b: set<nat>)
    requires a <= b
    ensures Credit(rows, maxRetries, a) <= Credit(rows, maxRetries, b)
    decreases b
  {
    if id :| id in b {
      CreditSplit(rows, maxRetries, b, id);
      if id in a {
        CreditSplit(rows, maxRetries, a, id);
        SubsetCredit(rows, maxRetries, a - {id}, b - {id});
      } else {
        SubsetCredit(rows, maxRetries, a, b - {id});
      }
    }
  }

  /** Bounded bypass: however the listeners behave, a deliverable row is passed by in at most
      (credit of the older rows) / batch_size polls, so one poll more claims it. */
  lemma {:induction false} BypassIsBounded(rows: map<nat, Row>, rounds: seq<Round>, size: nat, maxRetries: nat, row: nat)
    requires RetriesLeft(rows, maxRetries) && maxRetries > 0
    requires row in rows && Deliverable(rows[row])
    requires Orderly(rows, rounds, size, maxRetries, row) && !Served(rows, rounds, size, maxRetries, row)
    ensures |rounds| * size <= Credit(rows, maxRetries, Older(rows, row))
    decreases |rounds|
  {
    hide RetriesLeft, Credit, After, Claims, NothingOlder;
    if rounds != [] {
      var next := After(rows, rounds[0], size, maxRetries);
      RoundSpends(rows, rounds[0], size, maxRetries, row);
      BypassIsBounded(next, rounds[1..], size, maxRetries, row);
      OneMore(|rounds[1..]|, size);
    }
  }

  lemma OneMore(n: nat, size: nat)
    ensures (n + 1) * size == n * size + size
  {
  }

  lemma QuotientBound(credit: nat, size: nat)
    requires size > 0
    ensures credit < (credit / size + 1) * size
  {
  }

  /** The same, counted in polls. */
  lemma ClaimedInTime(rows: map<nat, Row>, rounds: seq<Round>, size: nat, maxRetries: nat, row: nat)
    requires RetriesLeft(rows, maxRetries) && maxRetries > 0 && size > 0
    requires row in rows && Deliverable(rows[row]) && Orderly(rows, rounds, size, maxRetries, row)
    requires |rounds| == Credit(rows, maxRetries, Older(rows, row)) / size + 1
    ensures Served(rows, rounds, size, maxRetries, row)
  {
    QuotientBound(Credit(rows, maxRetries, Older(rows, row)), size);
    if !Served(rows, rounds, size, maxRetries, row) {
      BypassIsBounded(rows, rounds, size, maxRetries, row);
    }
  }

  // ----- Draining -----

  /** The table after a number of polls with nothing arriving. */
  function Drained(rows: map<nat, Row>, rounds: seq<Round>, size: nat, maxRetries: nat): map<nat, Row>
    decreases |rounds|
  {
    if rounds == [] then rows
    else Drained(Polled(rows, size, maxRetries, rounds[0].delivered, rounds[0].now), rounds[1..], size, maxRetries)
  }

  ghost function TotalCredit(rows: map<nat, Row>, maxRetries: nat): nat {
    Credit(rows, maxRetries, DeliverableIds(rows))
  }

  /** The total credit is a termination measure: each poll spends one for every row it claims. */
  lemma PollSpends(rows: map<nat, Row>, size: nat, maxRetries: nat, delivered: set<nat>, now: int)
    requires RetriesLeft(rows, maxRetries)
    ensures
      var next := Polled(rows, size, maxRetries, delivered, now);
      && RetriesLeft(next, maxRetries)
      && TotalCredit(next, maxRetries) + |Batch(rows, size)| <= TotalCredit(rows, maxRetries)
  {
    var next, ids := Polled(rows, size, maxRetries, delivered, now), DeliverableIds(rows);
    PollSpendsOn(rows, size, maxRetries, delivered, now, ids);
    SubsetCredit(next, maxRetries, DeliverableIds(next), ids);
  }

  /** With nothing arriving, as many polls as there is credit leave nothing pending: every row has
      been published or dead-lettered, whatever the listeners did. */
  lemma {:induction false} QueueDrains(rows: map<nat, Row>, rounds: seq<Round>, size: nat, maxRetries: nat)
    requires RetriesLeft(rows, maxRetries) && size > 0 && |rounds| >= TotalCredit(rows, maxRetries)
    ensures DeliverableIds(Drained(rows, rounds, size, maxRetries)) == {}
    decreases |rounds|
  {
    if rounds == [] {
      if id :| id in DeliverableIds(rows) { CreditSplit(rows, maxRetries, DeliverableIds(rows), id); }
    } else {
      var round := rounds[0];
      PollSpends(rows, size, maxRetries, round.delivered, round.now);
      if DeliverableIds(rows) == {} {
        assert DeliverableIds(Polled(rows, size, maxRetries, round.delivered, round.now)) == {};
      }
      QueueDrains(Polled(rows, size, maxRetries, round.delivered, round.now), rounds[1..], size, maxRetries);
    }
  }
}
