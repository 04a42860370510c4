/** The transactional outbox: rows, one poll of a relay, the event bus it drives and the prune.
    A row id stands for the pair (occurred_at, id): its rank in the order the poll claims rows. */
module Outbox {
  import opened Wrappers

  type Handler = nat

  datatype Row = Row(eventType: string, publishedAt: Option<int>, deadLetteredAt: Option<int>, retryCount: nat)

  function Pending(eventType: string): Row {
    Row(eventType, None, None, 0)
  }

  predicate Deliverable(row: Row) {
    row.publishedAt.None? && row.deadLetteredAt.None?
  }

  /** The outcome of one delivery, as the poll writes it on the row. */
  function Settle(row: Row, delivered: bool, maxRetries: nat, now: int): Row {
    if delivered then row.(publishedAt := Some(now))
    else
      var failed := row.(retryCount := row.retryCount + 1);
      if failed.retryCount >= maxRetries then failed.(deadLetteredAt := Some(now)) else failed
  }

  /** A delivered row is published now; its retries stand. */
  predicate Published(before: Row, after: Row, now: int) {
    && after.eventType == before.eventType && after.publishedAt == Some(now)
    && after.deadLetteredAt == before.deadLetteredAt && after.retryCount == before.retryCount
  }

  /** A failed row has one more retry behind it, and is dead-lettered now exactly when that is the
      last it was allowed. */
  predicate Failed(before: Row, after: Row, maxRetries: nat, now: int) {
    && after.eventType == before.eventType && after.publishedAt == before.publishedAt
    && after.retryCount == before.retryCount + 1
    && after.deadLetteredAt == if before.retryCount + 1 < maxRetries then before.deadLetteredAt else Some(now)
  }

  lemma SettleMeans(row: Row, delivered: bool, maxRetries: nat, now: int)
    ensures delivered ==> Published(row, Settle(row, delivered, maxRetries, now), now)
    ensures !delivered ==> Failed(row, Settle(row, delivered, maxRetries, now), maxRetries, now)
  {
  }

  // ----- ORDER BY ... LIMIT -----

  predicate IsLeast(m: nat, ids: set<nat>) {
    m in ids && forall x :: x in ids ==> m <= x
  }

  lemma {:induction false} LeastExists(ids: set<nat>)
    requires ids != {}
    ensures exists m :: IsLeast(m, ids)
    decreases ids
  {
    var x :| x in ids;
    if ids == {x} {
      assert IsLeast(x, ids);
    } else {
      LeastExists(ids - {x});
      var m :| IsLeast(m, ids - {x});
      assert ids == (ids - {x}) + {x};
      assert IsLeast(if x < m then x else m, ids);
    }
  }

  predicate InOrder(ids: seq<nat>) {
    forall i, j :: 0 <= i < j < |ids| ==> ids[i] < ids[j]
  }

  /** These ids, all from the set, come before all the others in it. */
  predicate Leading(first: seq<nat>, ids: set<nat>) {
    && (forall x :: x in first ==> x in ids)
    && (forall x, y :: x in first && y in ids && y !in first ==> x < y)
  }

  lemma PrependLeast(m: nat, rest: seq<nat>, ids: set<nat>)
    requires IsLeast(m, ids) && InOrder(rest) && Leading(rest, ids - {m})
    ensures InOrder([m] + rest) && Leading([m] + rest, ids)
  {
    var first := [m] + rest;
    forall i, j | 0 <= i < j < |first| ensures first[i] < first[j] {
      assert first[j] == rest[j - 1] && rest[j - 1] in rest;
      if i > 0 { assert first[i] == rest[i - 1]; }
    }
    forall x, y | x in first && y in ids && y !in first ensures x < y {
      assert first[0] == m && y != m;
      assert y in rest ==> y in first;
      assert x == m || x in rest;
    }
  }

  /** The first `n` of the ids, in order. */
  function FirstOf(ids: set<nat>, n: nat): (first: seq<nat>)
    ensures |first| == if n < |ids| then n else |ids|
    ensures InOrder(first) && Leading(first, ids)
  {
    if n == 0 || ids == {} then [] else
      LeastExists(ids);
      var m :| IsLeast(m, ids);
      var rest := FirstOf(ids - {m}, n - 1);
      PrependLeast(m, rest, ids);
      [m] + rest
  }

  function DeliverableIds(rows: map<nat, Row>): set<nat> {
    set id | id in rows && Deliverable(rows[id])
  }

  /** The rows one poll claims when nobody else holds any. */
  function Batch(rows: map<nat, Row>, size: nat): seq<nat> {
    FirstOf(DeliverableIds(rows), size)
  }

  /** The table once the deliveries of these rows are settled; the rest is untouched. */
  function Settled(rows: map<nat, Row>, done: seq<nat>, maxRetries: nat, delivered: set<nat>, now: int): map<nat, Row> {
    map id | id in rows :: if id in done then Settle(rows[id], id in delivered, maxRetries, now) else rows[id]
  }

  /** The table after one poll. */
  function Polled(rows: map<nat, Row>, size: nat, maxRetries: nat, delivered: set<nat>, now: int): map<nat, Row> {
    Settled(rows, Batch(rows, size), maxRetries, delivered, now)
  }

  lemma SettleNext(rows: map<nat, Row>, batch: seq<nat>, i: nat, maxRetries: nat, delivered: set<nat>, now: int)
    requires i < |batch| && batch[i] in rows && forall j :: 0 <= j < i ==> batch[j] != batch[i]
    ensures Settled(rows, batch[..i + 1], maxRetries, delivered, now)
         == Settled(rows, batch[..i], maxRetries, delivered, now)[batch[i] := Settle(rows[batch[i]], batch[i] in delivered, maxRetries, now)]
  {
  }

  /** What a settled batch says of each row. */
  lemma SettledRows(rows: map<nat, Row>, batch: seq<nat>, maxRetries: nat, delivered: set<nat>, now: int)
    ensures
      var after := Settled(rows, batch, maxRetries, delivered, now);
      && after.Keys == rows.Keys
      && (forall id :: id in rows && id !in batch ==> after[id] == rows[id])
      && (forall id :: id in rows && id in batch && id in delivered ==> Published(rows[id], after[id], now))
      && (forall id :: id in rows && id in batch && id !in delivered ==> Failed(rows[id], after[id], maxRetries, now))
  {
    hide Settle, Published, Failed;
    forall id | id in rows && id in batch
      ensures id in delivered ==> Published(rows[id], Settle(rows[id], id in delivered, maxRetries, now), now)
      ensures id !in delivered ==> Failed(rows[id], Settle(rows[id], id in delivered, maxRetries, now), maxRetries, now)
    {
      SettleMeans(rows[id], id in delivered, maxRetries, now);
    }
  }

  // ----- The event bus -----

  class EventBus {
    var listeners: map<string, seq<Handler>>

    constructor ()
      ensures listeners == map[]
    {
      listeners := map[];
    }

    /** The handlers of a type, in subscription order. */
    function Subscribed(eventType: string): seq<Handler>
      reads this
    {
      HandlersOf(listeners, eventType)
    }

    method Subscribe(eventType: string, handler: Handler)
      modifies this
      ensures Subscribed(eventType) == old(Subscribed(eventType)) + [handler]
      ensures forall other :: other != eventType ==> Subscribed(other) == old(Subscribed(other))
    {
      listeners := listeners[eventType := Subscribed(eventType) + [handler]];
    }

    /** Awaits the handlers in order and stops at the first that raises. */
    method Dispatch(eventType: string, raises: Handler -> bool) returns (ok: bool, completed: seq<Handler>)
      ensures FannedOut(Subscribed(eventType), raises, ok, completed)
    {
      var handlers := Subscribed(eventType);
      var i := 0;
      while i < |handlers|
        invariant 0 <= i <= |handlers|
        invariant forall k :: 0 <= k < i ==> !raises(handlers[k])
      {
        if raises(handlers[i]) { return false, handlers[..i]; }
        i := i + 1;
      }
      return true, handlers;
    }
  }

  /** The handlers completed in order, up to the first that raises if any does. */
  predicate FannedOut(handlers: seq<Handler>, raises: Handler -> bool, ok: bool, completed: seq<Handler>) {
    && completed <= handlers
    && (forall i :: 0 <= i < |completed| ==> !raises(completed[i]))
    && (ok <==> completed == handlers)
    && (!ok ==> |completed| < |handlers| && raises(handlers[|completed|]))
  }

  // ----- The table -----

  /** Why a delivery can fail: an unknown type, a payload that no longer validates, or a handler. */
  datatype World = World(registry: set<string>, readable: nat -> bool, raises: (nat, Handler) -> bool)

  function HandlersOf(listeners: map<string, seq<Handler>>, eventType: string): seq<Handler> {
    if eventType in listeners then listeners[eventType] else []
  }

  predicate Delivers(world: World, listeners: map<string, seq<Handler>>, row: Row, id: nat) {
    row.eventType in world.registry && world.readable(id) && forall h :: h in HandlersOf(listeners, row.eventType) ==> !world.raises(id, h)
  }

  /** The claimed rows all of whose handlers complete. */
  function DeliveredIds(world: World, listeners: map<string, seq<Handler>>, rows: map<nat, Row>, size: nat): set<nat> {
    set id | id in Batch(rows, size) && id in rows && Delivers(world, listeners, rows[id], id)
  }

  predicate Prunable(row: Row, cutoff: int) {
    row.publishedAt.Some? && row.deadLetteredAt.None? && row.publishedAt.value <= cutoff
  }

  function PrunableIds(rows: map<nat, Row>, cutoff: int): set<nat> {
    set id | id in rows && Prunable(rows[id], cutoff)
  }

  function Min(a: nat, b: nat): nat {
    if a < b then a else b
  }

  class OutboxTable {
    var rows: map<nat, Row>

    constructor ()
      ensures rows == map[]
    {
      rows := map[];
    }

    /** `deliver_pending`: claim one batch, deliver each row in isolation, commit the outcomes once. */
    method DeliverPending(bus: EventBus, world: World, batchSize: nat, maxRetries: nat, now: int) returns (claimed: nat)
      modifies this
      ensures claimed == |Batch(old(rows), batchSize)|
      ensures rows == Polled(old(rows), batchSize, maxRetries, DeliveredIds(world, bus.listeners, old(rows), batchSize), now)
      ensures rows.Keys == old(rows).Keys
      ensures forall id :: id in old(rows) && id !in Batch(old(rows), batchSize) ==> rows[id] == old(rows)[id]
      ensures forall id :: id in Batch(old(rows), batchSize) && id in old(rows) && Delivers(world, bus.listeners, old(rows)[id], id) ==>
        Published(old(rows)[id], rows[id], now)
      ensures forall id :: id in Batch(old(rows), batchSize) && id in old(rows) && !Delivers(world, bus.listeners, old(rows)[id], id) ==>
        Failed(old(rows)[id], rows[id], maxRetries, now)
    {
      hide Settle, Published, Failed, FirstOf, HandlersOf;
      var batch := Batch(rows, batchSize);
      ghost var delivered := DeliveredIds(world, bus.listeners, rows, batchSize);
      var session := rows;
      var i := 0;
      while i < |batch|
        invariant 0 <= i <= |batch| && rows == old(rows)
        invariant session == Settled(rows, batch[..i], maxRetries, delivered, now)
      {
        var id := batch[i];
        assert id in batch;
        var row := session[id];
        var ok := row.eventType in world.registry && world.readable(id);
        if ok {
          var ran;
          ok, ran := bus.Dispatch(row.eventType, (h: Handler) => world.raises(id, h));
        }
        SettleNext(rows, batch, i, maxRetries, delivered, now);
        session := session[id := Settle(row, ok, maxRetries, now)];
        i := i + 1;
      }
      assert batch[..|batch|] == batch;
      SettledRows(rows, batch, maxRetries, delivered, now);
      rows := session;
      claimed := |batch|;
    }

    /** Other sessions commit new rows. */
    method Arrive(added: map<nat, Row>)
      modifies this
      ensures rows == old(rows) + added
    {
      rows := rows + added;
    }

    /** `purge_published`: bounded batches, each its own transaction, stopping at a short one. When
        the transaction of batch `faultAt` fails the pass raises, and the batches before it stay
        deleted; a `faultAt` of `maxBatches` or more is a pass without a fault. */
    method PurgePublished(cutoff: int, batchSize: nat, maxBatches: nat, faultAt: nat) returns (deleted: Option<nat>)
      modifies this
      ensures Pruned(old(rows), rows, cutoff, batchSize * Min(maxBatches, faultAt))
      ensures forall id :: id in rows ==> id in old(rows) && rows[id] == old(rows)[id]
      ensures forall id :: id in old(rows) && id !in rows ==>
        && old(rows)[id].publishedAt.Some? && old(rows)[id].deadLetteredAt.None?
        && old(rows)[id].publishedAt.value <= cutoff
      ensures
        var eligible := set id | id in old(rows) && old(rows)[id].publishedAt.Some? && old(rows)[id].deadLetteredAt.None?
                                 && old(rows)[id].publishedAt.value <= cutoff;
        && |old(rows).Keys - rows.Keys| == Min(|eligible|, batchSize * Min(maxBatches, faultAt))
        && (deleted.None? <==> faultAt < maxBatches && batchSize * faultAt <= |eligible|)
        && (deleted.Some? ==> deleted.value == |old(rows).Keys - rows.Keys| == Min(|eligible|, batchSize * maxBatches))
    {
      hide PrunableIds, Pruned;
      EligibleMeans(rows, cutoff);
      ghost var before := rows;
      deleted := PurgeBatches(cutoff, batchSize, maxBatches, faultAt);
      PrunedMeans(before, rows, cutoff, batchSize * Min(maxBatches, faultAt));
    }

    /** The loop of the pass: one transaction a batch, until a short one, a fault or the last. */
    method PurgeBatches(cutoff: int, batchSize: nat, maxBatches: nat, faultAt: nat) returns (deleted: Option<nat>)
      modifies this
      ensures Pruned(old(rows), rows, cutoff, batchSize * Min(maxBatches, faultAt))
      ensures deleted.None? <==> faultAt < maxBatches && batchSize * faultAt <= |PrunableIds(old(rows), cutoff)|
      ensures deleted.Some? ==> deleted.value == Min(|PrunableIds(old(rows), cutoff)|, batchSize * maxBatches)
      ensures deleted.Some? ==> deleted.value == Min(|PrunableIds(old(rows), cutoff)|, batchSize * Min(maxBatches, faultAt))
    {

      hide PrunableIds;
      var count := 0;
      ghost var gone: set<nat> := {};
      var pass := 0;
      assert rows - gone == rows;
      while pass < maxBatches
        invariant 0 <= pass <= Min(maxBatches, faultAt)
        invariant gone <= PrunableIds(old(rows), cutoff) && |gone| == count && rows == old(rows) - gone
        invariant count == batchSize * pass <= |PrunableIds(old(rows), cutoff)|
      {
        if pass == faultAt { return None; }
        var batch := SomeOf(PrunableIds(rows, cutoff), batchSize);
        PruneBatch(old(rows), cutoff, gone, batch);
        rows := rows - batch;
        gone := gone + batch;
        count := count + |batch|;
        BatchArithmetic(batchSize, pass, Min(maxBatches, faultAt));
        BatchArithmetic(batchSize, pass, maxBatches);
        if |batch| < batchSize {
          if faultAt < maxBatches { BatchArithmetic(batchSize, pass, faultAt); }
          return Some(count);
        }
        pass := pass + 1;
      }
      deleted := Some(count);
    }
  }

  /** A pass took `cap` eligible rows, or all there were, and left every other row alone. */
  ghost predicate Pruned(before: map<nat, Row>, after: map<nat, Row>, cutoff: int, cap: nat) {
    exists gone :: gone <= PrunableIds(before, cutoff) && |gone| == Min(|PrunableIds(before, cutoff)|, cap) && after == before - gone
  }

  /** Eligible for the prune: published, not dead-lettered, and published at the cutoff or before. */
  lemma EligibleMeans(rows: map<nat, Row>, cutoff: int)
    ensures PrunableIds(rows, cutoff) ==
      set id | id in rows && rows[id].publishedAt.Some? && rows[id].deadLetteredAt.None? && rows[id].publishedAt.value <= cutoff
  {
  }

  lemma PrunedMeans(before: map<nat, Row>, after: map<nat, Row>, cutoff: int, cap: nat)
    requires Pruned(before, after, cutoff, cap)
    ensures forall id :: id in after ==> id in before && after[id] == before[id]
    ensures before.Keys - after.Keys <= PrunableIds(before, cutoff)
    ensures |before.Keys - after.Keys| == Min(|PrunableIds(before, cutoff)|, cap)
    ensures forall id :: id in before && id !in after ==>
      before[id].publishedAt.Some? && before[id].deadLetteredAt.None? && before[id].publishedAt.value <= cutoff
  {
    hide PrunableIds;
    EligibleMeans(before, cutoff);
    var gone :| gone <= PrunableIds(before, cutoff) && |gone| == Min(|PrunableIds(before, cutoff)|, cap) && after == before - gone;
    RemovedKeys(before, gone);
  }

  lemma RemovedKeys(rows: map<nat, Row>, gone: set<nat>)
    requires gone <= rows.Keys
    ensures rows.Keys - (rows - gone).Keys == gone
    ensures forall id :: id in rows - gone ==> id in rows && (rows - gone)[id] == rows[id]
  {
  }

  /** An unordered `LIMIT`: some `n` of the ids, or all of them. */
  method SomeOf(ids: set<nat>, n: nat) returns (some: set<nat>)
    ensures some <= ids && |some| == Min(|ids|, n)
  {
    some := {};
    var rest := ids;
    while rest != {} && |some| < n
      invariant some !! rest && some + rest == ids && |some| <= n
      decreases rest
    {
      var x :| x in rest;
      some, rest := some + {x}, rest - {x};
    }
  }

  lemma PruneLeft(rows: map<nat, Row>, cutoff: int, gone: set<nat>)
    ensures PrunableIds(rows - gone, cutoff) == PrunableIds(rows, cutoff) - gone
  {
  }

  lemma PruneBatch(rows: map<nat, Row>, cutoff: int, gone: set<nat>, batch: set<nat>)
    requires gone <= PrunableIds(rows, cutoff) && batch <= PrunableIds(rows - gone, cutoff)
    ensures gone !! batch && gone + batch <= PrunableIds(rows, cutoff)
    ensures rows - gone - batch == rows - (gone + batch)
    ensures |PrunableIds(rows - gone, cutoff)| == |PrunableIds(rows, cutoff)| - |gone|
    ensures |gone| + |batch| == |gone + batch| <= |PrunableIds(rows, cutoff)|
  {
    hide PrunableIds;
    var all := PrunableIds(rows, cutoff);
    PruneLeft(rows, cutoff, gone);
    assert all == (gone + batch) + (all - (gone + batch));
  }

  lemma BatchArithmetic(size: nat, pass: nat, passes: nat)
    requires pass < passes
    ensures size * pass + size == size * (pass + 1) <= size * passes
  {
    var left := passes - pass - 1;
    assert size * passes == size * (pass + 1) + size * left;
  }
}
