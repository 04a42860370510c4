/** The relay's poll loop. A full batch polls again at once; a short one, or a poll that failed
    before its commit, lets the relay idle. Time and the loop's intervals are not modelled. */
module OutboxRelays {
  import opened Wrappers
  import opened Sets
  import opened Outbox
  import opened OutboxProgress

  class OutboxRelay {
    const table: OutboxTable
    const bus: EventBus
    const batchSize: nat
    const maxRetries: nat

    constructor (table: OutboxTable, bus: EventBus, batchSize: nat, maxRetries: nat)
      ensures this.table == table && this.bus == bus && this.batchSize == batchSize && this.maxRetries == maxRetries
    {
      this.table, this.bus, this.batchSize, this.maxRetries := table, bus, batchSize, maxRetries;
    }

    /** `_tick`: one poll, or no change at all when its transaction fails. */
    method Tick(world: Option<World>, now: int) returns (processed: nat)
      modifies table
      ensures processed <= batchSize
      ensures old(RetriesLeft(table.rows, maxRetries)) ==>
        && RetriesLeft(table.rows, maxRetries)
        && processed + TotalCredit(table.rows, maxRetries) <= old(TotalCredit(table.rows, maxRetries))
      ensures world.Some? && processed < batchSize ==> |DeliverableIds(table.rows)| < batchSize
      ensures world.None? ==> processed == 0 && table.rows == old(table.rows)
      ensures world.Some? ==>
        && processed == |Batch(old(table.rows), batchSize)|
        && table.rows == Polled(old(table.rows), batchSize, maxRetries,
                                DeliveredIds(world.value, bus.listeners, old(table.rows), batchSize), now)
    {
      if world.None? { return 0; }
      hide Credit, Polled, DeliveredIds, DeliverableIds;
      ghost var before := table.rows;
      ghost var delivered := DeliveredIds(world.value, bus.listeners, before, batchSize);
      if RetriesLeft(before, maxRetries) { PollSpends(before, batchSize, maxRetries, delivered, now); }
      processed := table.DeliverPending(bus, world.value, batchSize, maxRetries, now);
      if processed < batchSize { ShortBatchLeavesLess(before, batchSize, maxRetries, delivered, now); }
    }

    /** The loop between two sleeps, for as many ticks as it is given before it is told to stop;
        before tick `i` producers commit `arrivals[i]`. Each poll but the last spends a full batch
        of retries, so the loop comes to rest as soon as the ticks outrun what there was and what
        arrived, whatever the listeners do: if arrivals stop at tick `n`, within the polls that the
        retries there and those of the arrivals before `n` can fill, and one more. Fed a full batch
        before each poll, it never rests. */
    method RunUntilIdle(worlds: nat -> Option<World>, clock: nat -> int, arrivals: seq<map<nat, Row>>) returns (ticks: nat, idle: bool)
      requires batchSize > 0 && maxRetries > 0 && RetriesLeft(table.rows, maxRetries) && FreshArrivals(table.rows, arrivals)
      modifies table
      ensures ticks <= |arrivals| && (idle ==> ticks > 0) && (!idle ==> ticks == |arrivals|) && RetriesLeft(table.rows, maxRetries)
      ensures (if idle then ticks - 1 else ticks) * batchSize + TotalCredit(table.rows, maxRetries)
           <= old(TotalCredit(table.rows, maxRetries)) + maxRetries * Arrived(arrivals[..ticks])
      ensures |arrivals| * batchSize > old(TotalCredit(table.rows, maxRetries)) + maxRetries * Arrived(arrivals) ==> idle
      ensures forall n: nat :: NoneFrom(arrivals, n) ==>
        RestsBy(arrivals, n, old(TotalCredit(table.rows, maxRetries)), maxRetries, batchSize, ticks, idle)
      ensures idle && worlds(ticks - 1).Some? ==> |DeliverableIds(table.rows)| < batchSize
      ensures (forall i :: 0 <= i < |arrivals| ==> worlds(i).Some? && |arrivals[i]| >= batchSize) ==> !idle
    {
      hide RetriesLeft, TotalCredit, Polled, Batch, DeliveredIds, DeliverableIds, FreshArrivals, RestsBy, NoneFrom;
      ticks, idle := 0, false;
      ghost var full := 0;
      while ticks < |arrivals| && !idle
        invariant ticks <= |arrivals| && RetriesLeft(table.rows, maxRetries)
        invariant !idle ==> FreshArrivals(table.rows, arrivals[ticks..]) && full == ticks * batchSize
        invariant idle ==> ticks > 0 && full == (ticks - 1) * batchSize
        invariant full + TotalCredit(table.rows, maxRetries) <= old(TotalCredit(table.rows, maxRetries)) + maxRetries * Arrived(arrivals[..ticks])
        invariant idle && worlds(ticks - 1).Some? ==> |DeliverableIds(table.rows)| < batchSize
        invariant (forall i :: 0 <= i < |arrivals| ==> worlds(i).Some? && |arrivals[i]| >= batchSize) ==> !idle
      {
        var processed := ArriveAndTick(worlds(ticks), clock(ticks), arrivals[ticks..]);
        ArrivedNext(arrivals, ticks, maxRetries);
        assert arrivals[ticks..][0] == arrivals[ticks] && arrivals[ticks..][1..] == arrivals[ticks + 1..];
        idle := processed < batchSize;
        if !idle { full := full + batchSize; }
        ticks := ticks + 1;
      }
      assert ticks == |arrivals| ==> arrivals[..ticks] == arrivals;
      RestsOnceArrivalsStop(arrivals, old(TotalCredit(table.rows, maxRetries)), maxRetries, batchSize, ticks, idle);
    }

    /** One turn of the loop: what producers committed in the meantime, then a tick. */
    method ArriveAndTick(world: Option<World>, now: int, arrivals: seq<map<nat, Row>>) returns (processed: nat)
      requires maxRetries > 0 && RetriesLeft(table.rows, maxRetries) && arrivals != [] && FreshArrivals(table.rows, arrivals)
      modifies table
      ensures processed <= batchSize && RetriesLeft(table.rows, maxRetries) && FreshArrivals(table.rows, arrivals[1..])
      ensures processed + TotalCredit(table.rows, maxRetries) <= old(TotalCredit(table.rows, maxRetries)) + maxRetries * |arrivals[0]|
      ensures world.Some? && processed < batchSize ==> |DeliverableIds(table.rows)| < batchSize
      ensures world.Some? && |arrivals[0]| >= batchSize ==> processed == batchSize
    {
      hide TotalCredit, Polled, Batch, DeliveredIds, RetriesLeft, FreshArrivals, DeliverableIds;
      ghost var before := table.rows;
      table.Arrive(arrivals[0]);
      ghost var fed := table.rows;
      ArrivalsAdd(before, arrivals, maxRetries);
      processed := Tick(world, now);
      if world.Some? {
        BatchSize(fed, batchSize);
        PolledKeys(fed, batchSize, maxRetries, DeliveredIds(world.value, bus.listeners, fed, batchSize), now);
      }
      StillFresh(fed, table.rows, arrivals[1..]);
    }

    /** `_cleanup`: one bounded prune, its failure swallowed. What the batches before the fault
        deleted stays deleted, and nothing else goes. */
    method Cleanup(cutoff: int, batchSize: nat, maxBatches: nat, faultAt: nat)
      modifies table
      ensures Pruned(old(table.rows), table.rows, cutoff, batchSize * Min(maxBatches, faultAt))
      ensures forall id :: id in table.rows ==> id in old(table.rows) && table.rows[id] == old(table.rows)[id]
      ensures forall id :: id in old(table.rows) && id !in table.rows ==>
        && old(table.rows)[id].publishedAt.Some? && old(table.rows)[id].deadLetteredAt.None?
        && old(table.rows)[id].publishedAt.value <= cutoff
    {
      hide Pruned;
      var deleted := table.PurgePublished(cutoff, batchSize, maxBatches, faultAt);
    }
  }

  // ----- Arrivals -----

  function Arrived(arrivals: seq<map<nat, Row>>): nat {
    if arrivals == [] then 0 else Arrived(arrivals[..|arrivals| - 1]) + |arrivals[|arrivals| - 1]|
  }

  lemma ArrivedNext(arrivals: seq<map<nat, Row>>, i: nat, maxRetries: nat)
    requires i < |arrivals|
    ensures maxRetries * Arrived(arrivals[..i + 1]) == maxRetries * Arrived(arrivals[..i]) + maxRetries * |arrivals[i]|
  {
    assert arrivals[..i + 1][..i] == arrivals[..i];
  }

  /** Arrivals have stopped by tick `n`. */
  predicate NoneFrom(arrivals: seq<map<nat, Row>>, n: nat) {
    n <= |arrivals| && forall i :: n <= i < |arrivals| ==> arrivals[i] == map[]
  }

  /** Once arrivals stop, what has arrived is all that ever will. */
  lemma {:induction false} ArrivalsStop(arrivals: seq<map<nat, Row>>, n: nat)
    requires NoneFrom(arrivals, n)
    ensures Arrived(arrivals) == Arrived(arrivals[..n])
    decreases |arrivals|
  {
    if n == |arrivals| {
      assert arrivals[..n] == arrivals;
    } else {
      var front := arrivals[..|arrivals| - 1];
      ArrivalsStop(front, n);
      assert front[..n] == arrivals[..n];
    }
  }

  lemma {:induction false} ArrivedGrows(arrivals: seq<map<nat, Row>>, n: nat)
    requires n <= |arrivals|
    ensures Arrived(arrivals[..n]) <= Arrived(arrivals)
    decreases |arrivals|
  {
    if n == |arrivals| {
      assert arrivals[..n] == arrivals;
    } else {
      var front := arrivals[..|arrivals| - 1];
      ArrivedGrows(front, n);
      assert front[..n] == arrivals[..n];
    }
  }

  /** With arrivals stopped by tick `n`, only the arrivals before it count: the loop rests if it is
      given more ticks than they and the retries there were can fill, and by then it has rested. */
  predicate RestsBy(arrivals: seq<map<nat, Row>>, n: nat, credit: nat, maxRetries: nat, size: nat, ticks: nat, idle: bool)
    requires n <= |arrivals|
  {
    var work := credit + maxRetries * Arrived(arrivals[..n]);
    (|arrivals| * size > work ==> idle) && (idle ==> (ticks - 1) * size <= work)
  }

  lemma RestsOnceArrivalsStop(arrivals: seq<map<nat, Row>>, credit: nat, maxRetries: nat, size: nat, ticks: nat, idle: bool)
    requires ticks <= |arrivals| && (!idle ==> ticks == |arrivals|)
    requires (if idle then ticks - 1 else ticks) * size <= credit + maxRetries * Arrived(arrivals[..ticks])
    ensures forall n: nat :: NoneFrom(arrivals, n) ==> RestsBy(arrivals, n, credit, maxRetries, size, ticks, idle)
  {
    hide NoneFrom, Arrived;
    forall n: nat | NoneFrom(arrivals, n) ensures n <= |arrivals| && RestsBy(arrivals, n, credit, maxRetries, size, ticks, idle) {
      assert n <= |arrivals| by { NoneFromBound(arrivals, n); }
      ArrivalsStop(arrivals, n);
      ArrivedGrows(arrivals, ticks);
      MoreOf(maxRetries, Arrived(arrivals[..ticks]), Arrived(arrivals));
    }
  }

  lemma NoneFromBound(arrivals: seq<map<nat, Row>>, n: nat)
    requires NoneFrom(arrivals, n)
    ensures n <= |arrivals|
  {
  }

  lemma MoreOf(factor: nat, few: nat, many: nat)
    requires few <= many
    ensures factor * few <= factor * many
  {
  }

  /** New rows only, each committed once, as producers stage them. */
  predicate FreshArrivals(rows: map<nat, Row>, arrivals: seq<map<nat, Row>>)
    decreases |arrivals|
  {
    arrivals != [] ==>
      && (forall id :: id in arrivals[0] ==> id !in rows && arrivals[0][id] == Pending(arrivals[0][id].eventType))
      && FreshArrivals(rows + arrivals[0], arrivals[1..])
  }

  /** Freshness is about ids only. */
  lemma {:induction false} StillFresh(rows: map<nat, Row>, after: map<nat, Row>, arrivals: seq<map<nat, Row>>)
    requires FreshArrivals(rows, arrivals) && after.Keys == rows.Keys
    ensures FreshArrivals(after, arrivals)
    decreases |arrivals|
  {
    if arrivals != [] {
      assert (after + arrivals[0]).Keys == (rows + arrivals[0]).Keys;
      StillFresh(rows + arrivals[0], after + arrivals[0], arrivals[1..]);
    }
  }

  lemma PolledKeys(rows: map<nat, Row>, size: nat, maxRetries: nat, delivered: set<nat>, now: int)
    ensures Polled(rows, size, maxRetries, delivered, now).Keys == rows.Keys
  {
  }

  lemma BatchSize(rows: map<nat, Row>, size: nat)
    ensures |DeliverableIds(rows)| >= size ==> |Batch(rows, size)| == size
  {
  }

  lemma {:induction false} CreditOfFresh(rows: map<nat, Row>, maxRetries: nat, ids: set<nat>)
    requires forall id :: id in ids ==> CreditOf(rows, maxRetries, id) == maxRetries
    ensures Credit(rows, maxRetries, ids) == maxRetries * |ids|
    decreases ids
  {
    if ids != {} {
      var id :| id in ids;
      hide Credit, CreditOf;
      CreditSplit(rows, maxRetries, ids, id);
      CreditOfFresh(rows, maxRetries, ids - {id});
      assert |ids| == |ids - {id}| + 1;
      OneMore(|ids - {id}|, maxRetries);
    }
  }

  lemma {:induction false} CreditUnion(rows: map<nat, Row>, maxRetries: nat, a: set<nat>, b: set<nat>)
    requires a !! b
    ensures Credit(rows, maxRetries, a + b) == Credit(rows, maxRetries, a) + Credit(rows, maxRetries, b)
    decreases b
  {
    if b == {} {
      assert a + b == a;
    } else {
      var id :| id in b;
      CreditSplit(rows, maxRetries, a + b, id);
      CreditSplit(rows, maxRetries, b, id);
      assert a + b - {id} == a + (b - {id});
      CreditUnion(rows, maxRetries, a, b - {id});
    }
  }

  lemma ArrivedDeliverable(rows: map<nat, Row>, added: map<nat, Row>)
    requires forall id :: id in added ==> id !in rows && added[id] == Pending(added[id].eventType)
    ensures DeliverableIds(rows + added) == DeliverableIds(rows) + added.Keys && DeliverableIds(rows) !! added.Keys
  {
  }

  /** Arrivals add a full set of retries each. */
  lemma ArrivalsAdd(rows: map<nat, Row>, arrivals: seq<map<nat, Row>>, maxRetries: nat)
    requires maxRetries > 0 && RetriesLeft(rows, maxRetries) && arrivals != [] && FreshArrivals(rows, arrivals)
    ensures
      var fed := rows + arrivals[0];
      && RetriesLeft(fed, maxRetries) && FreshArrivals(fed, arrivals[1..])
      && TotalCredit(fed, maxRetries) == TotalCredit(rows, maxRetries) + maxRetries * |arrivals[0]|
      && |DeliverableIds(fed)| >= |arrivals[0]|
  {
    hide DeliverableIds;
    var added := arrivals[0];
    var fed, ids := rows + added, DeliverableIds(rows);
    ArrivedDeliverable(rows, added);
    CreditUnion(fed, maxRetries, ids, added.Keys);
    SameCreditOld(rows, added, maxRetries);
    CreditOfFresh(fed, maxRetries, added.Keys);
    assert |added.Keys| == |added|;
    SubsetSize(added.Keys, ids + added.Keys);
  }

  lemma SameCreditOld(rows: map<nat, Row>, added: map<nat, Row>, maxRetries: nat)
    requires forall id :: id in added ==> id !in rows
    ensures Credit(rows + added, maxRetries, DeliverableIds(rows)) == Credit(rows, maxRetries, DeliverableIds(rows))
  {
    SameCredit(rows + added, rows, maxRetries, DeliverableIds(rows));
  }

  /** A batch that came up short claimed every deliverable row, so only its failures remain. */
  lemma ShortBatchLeavesLess(rows: map<nat, Row>, size: nat, maxRetries: nat, delivered: set<nat>, now: int)
    requires |Batch(rows, size)| < size
    ensures |DeliverableIds(Polled(rows, size, maxRetries, delivered, now))| < size
  {
    var left, all := DeliverableIds(Polled(rows, size, maxRetries, delivered, now)), DeliverableIds(rows);
    assert left <= all;
    SubsetSize(left, all);
  }
}
