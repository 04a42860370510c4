/** The protocol's dispatches are the bus's. Whatever the listeners do, the fan-out loop ends one of
    the ways the protocol allows, having run exactly the handlers the protocol logs; and a lone
    relay in a given world leaves exactly the table of one `deliver_pending` in that world. */
module OutboxWorlds {
  import opened Wrappers
  import opened Outbox
  import opened OutboxProgress
  import opened OutboxProtocol
  import opened OutboxSafety

  /** How a fan-out over the handlers from `i` on ends. */
  function EndFrom(handlers: seq<Handler>, raises: Handler -> bool, i: nat): Dispatch
    requires i <= |handlers|
    decreases |handlers| - i
  {
    if i == |handlers| then Completed
    else if raises(handlers[i]) then RaisedAt(i)
    else EndFrom(handlers, raises, i + 1)
  }

  lemma {:induction false} EndsFirst(handlers: seq<Handler>, raises: Handler -> bool, i: nat, n: nat)
    requires i <= n <= |handlers| && (forall k :: i <= k < n ==> !raises(handlers[k])) && (n < |handlers| ==> raises(handlers[n]))
    ensures EndFrom(handlers, raises, i) == if n == |handlers| then Completed else RaisedAt(n)
    decreases n - i
  {
    if i < n { EndsFirst(handlers, raises, i + 1, n); }
  }

  /** Every outcome of the bus is a dispatch of the protocol: it completed exactly when the bus
      succeeded, and the protocol logs exactly the handlers that ran to completion. */
  lemma DispatchIsRan(c: Config, eventType: string, raises: Handler -> bool, ok: bool, completed: seq<Handler>)
    requires eventType in c.registry && FannedOut(HandlersOf(c.listeners, eventType), raises, ok, completed)
    ensures
      var dispatch := EndFrom(HandlersOf(c.listeners, eventType), raises, 0);
      Ran(c, eventType, dispatch) == Some(completed) && (dispatch.Completed? <==> ok)
  {
    var handlers := HandlersOf(c.listeners, eventType);
    EndsFirst(handlers, raises, 0, |completed|);
    assert handlers[..|completed|] == completed;
  }

  lemma {:induction false} CompletesIff(handlers: seq<Handler>, raises: Handler -> bool, i: nat)
    requires i <= |handlers|
    ensures EndFrom(handlers, raises, i).Completed? <==> forall k :: i <= k < |handlers| ==> !raises(handlers[k])
    ensures EndFrom(handlers, raises, i).RaisedAt? ==> EndFrom(handlers, raises, i).handler < |handlers|
    ensures !EndFrom(handlers, raises, i).Unreadable?
    decreases |handlers| - i
  {
    if i < |handlers| { CompletesIff(handlers, raises, i + 1); }
  }

  function Raising(world: World, id: nat): Handler -> bool {
    (h: Handler) => world.raises(id, h)
  }

  /** How the delivery of a row ends in a world: unreadable, or as the fan-out does. */
  function EndOf(world: World, listeners: map<string, seq<Handler>>, row: Row, id: nat): Dispatch {
    if row.eventType in world.registry && world.readable(id)
    then EndFrom(HandlersOf(listeners, row.eventType), Raising(world, id), 0)
    else Unreadable
  }

  function EndsIn(world: World, listeners: map<string, seq<Handler>>, rows: map<nat, Row>, batch: seq<nat>): seq<Dispatch>
    requires forall i :: 0 <= i < |batch| ==> batch[i] in rows
  {
    seq(|batch|, i requires 0 <= i < |batch| => EndOf(world, listeners, rows[batch[i]], batch[i]))
  }

  lemma EndDelivers(c: Config, world: World, row: Row, id: nat)
    requires world.registry == c.registry
    ensures Ran(c, row.eventType, EndOf(world, c.listeners, row, id)).Some?
    ensures EndOf(world, c.listeners, row, id).Completed? <==> Delivers(world, c.listeners, row, id)
  {
    CompletesIff(HandlersOf(c.listeners, row.eventType), Raising(world, id), 0);
  }

  lemma BatchInRows(rows: map<nat, Row>, size: nat)
    ensures forall i :: 0 <= i < |Batch(rows, size)| ==> Batch(rows, size)[i] in rows
  {
    var batch := Batch(rows, size);
    forall i | 0 <= i < |batch| ensures batch[i] in rows { assert batch[i] in batch; }
  }

  /** The ends a world induces are ends the protocol can take, and complete exactly the rows that
      world delivers. */
  lemma WorldEnds(c: Config, world: World, rows: map<nat, Row>, size: nat)
    requires world.registry == c.registry
    ensures forall i :: 0 <= i < |Batch(rows, size)| ==> Batch(rows, size)[i] in rows
    ensures
      var batch := Batch(rows, size);
      var ends := EndsIn(world, c.listeners, rows, batch);
      CanEnd(c, rows, batch, ends) && CompletedIn(batch, ends) == DeliveredIds(world, c.listeners, rows, size)
  {
    hide Ran, EndOf, Delivers, Batch;
    BatchInRows(rows, size);
    var batch := Batch(rows, size);
    var ends := EndsIn(world, c.listeners, rows, batch);
    forall i | 0 <= i < |batch|
      ensures Ran(c, rows[batch[i]].eventType, ends[i]).Some?
      ensures ends[i].Completed? <==> Delivers(world, c.listeners, rows[batch[i]], batch[i])
    {
      EndDelivers(c, world, rows[batch[i]], batch[i]);
    }
    forall id ensures id in CompletedIn(batch, ends) <==> id in DeliveredIds(world, c.listeners, rows, size) {
      if id in DeliveredIds(world, c.listeners, rows, size) { var i :| 0 <= i < |batch| && batch[i] == id; assert ends[i].Completed?; }
    }
  }

  /** In any world, a lone relay's claim, dispatches and commit leave exactly the table that
      `deliver_pending` is proved to leave there. */
  lemma LoneRelayIsDeliverPending(c: Config, s: Db, r: RelayId, size: nat, world: World, now: int)
    requires s.relays == map[] && world.registry == c.registry
    ensures forall i :: 0 <= i < |Batch(s.rows, size)| ==> Batch(s.rows, size)[i] in s.rows
    ensures
      var ends := EndsIn(world, c.listeners, s.rows, Batch(s.rows, size));
      var end := Run(c, s, [Claim(r, size)] + Deliveries(r, ends, now) + [Commit(r)]);
      && end.Some? && end.value.relays == map[]
      && end.value.rows == Polled(s.rows, size, c.maxRetries, DeliveredIds(world, c.listeners, s.rows, size), now)
  {
    hide Do, Run, Batch, CanEnd, CompletedIn, DeliveredIds, EndsIn, Polled;
    WorldEnds(c, world, s.rows, size);
    LoneRelayIsOnePoll(c, s, r, size, EndsIn(world, c.listeners, s.rows, Batch(s.rows, size)), now);
  }

  // ----- Progress from reachable states -----

  /** In every reachable table the deliverable rows have retries left, which is what the progress
      results ask of the table they start from. */
  lemma ReachedHasRetries(c: Config, s: Db)
    requires c.maxRetries > 0 && Reached(c, s)
    ensures RetriesLeft(s.rows, c.maxRetries)
  {
    ClaimsAndRetries(c, s);
  }

  /** So from every reachable state a deliverable row is claimed within that many polls of a lone
      relay, and with nothing arriving the queue drains. */
  lemma ReachedIsServed(c: Config, s: Db, rounds: seq<Round>, size: nat, row: nat)
    requires c.maxRetries > 0 && size > 0 && Reached(c, s)
    ensures row in s.rows && Deliverable(s.rows[row]) && Orderly(s.rows, rounds, size, c.maxRetries, row)
      && |rounds| == Credit(s.rows, c.maxRetries, Older(s.rows, row)) / size + 1
      ==> Served(s.rows, rounds, size, c.maxRetries, row)
    ensures |rounds| >= TotalCredit(s.rows, c.maxRetries) ==> DeliverableIds(Drained(s.rows, rounds, size, c.maxRetries)) == {}
  {
    hide Reached, RetriesLeft, Credit, Served, Orderly, Older, TotalCredit, Drained, DeliverableIds;
    ReachedHasRetries(c, s);
    if row in s.rows && Deliverable(s.rows[row]) && Orderly(s.rows, rounds, size, c.maxRetries, row)
      && |rounds| == Credit(s.rows, c.maxRetries, Older(s.rows, row)) / size + 1 {
      ClaimedInTime(s.rows, rounds, size, c.maxRetries, row);
    }
    if |rounds| >= TotalCredit(s.rows, c.maxRetries) { QueueDrains(s.rows, rounds, size, c.maxRetries); }
  }
}
