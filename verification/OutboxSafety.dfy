/** What every run of the outbox keeps, and that a lone relay's round is one `deliver_pending`. */
module OutboxSafety {
  import opened Wrappers
  import opened Outbox
  import opened OutboxProtocol

  function One(b: bool): nat {
    if b then 1 else 0
  }

  /** Delivery is at-least-once and loses nothing: every row a producer ever committed is exactly
      one of pending, published, dead-lettered and purged; and once published or purged, some
      attempt ran every subscribed handler in subscription order to its end. */
  lemma NothingIsLost(c: Config, s: Db, id: nat)
    requires c.maxRetries > 0 && Reached(c, s) && id in s.staged
    ensures
      var stored := id in s.rows;
      var pending := stored && Deliverable(s.rows[id]);
      var published := stored && s.rows[id].publishedAt.Some?;
      var dead := stored && s.rows[id].deadLetteredAt.Some?;
      && One(pending) + One(published) + One(dead) + One(id in s.purged) == 1
      && (published || id in s.purged ==> FullyDelivered(c, s, id))
  {
    ReachedInv(c, s);
    assert id in s.rows || id in s.purged;
  }

  /** Claims are disjoint and attempts bounded: no row is held by two relays, only deliverable rows
      are held, a pending row has retries left and a dead-lettered one has none. */
  lemma ClaimsAndRetries(c: Config, s: Db)
    requires c.maxRetries > 0 && Reached(c, s)
    ensures forall r, q :: r in s.relays && q in s.relays && r != q ==>
      (set id | id in s.relays[r].batch) !! (set id | id in s.relays[q].batch)
    ensures forall r, id :: r in s.relays && id in s.relays[r].batch ==> id in s.rows && Deliverable(s.rows[id])
    ensures forall id :: id in s.rows ==>
      && !(s.rows[id].publishedAt.Some? && s.rows[id].deadLetteredAt.Some?)
      && (Deliverable(s.rows[id]) ==> s.rows[id].retryCount < c.maxRetries)
      && (s.rows[id].deadLetteredAt.Some? ==> s.rows[id].retryCount == c.maxRetries)
  {
    ReachedInv(c, s);
    forall r, id | r in s.relays && id in s.relays[r].batch ensures id in s.rows && Deliverable(s.rows[id]) {
      assert RelayOk(c, s, s.relays[r]);
      var i :| 0 <= i < |s.relays[r].batch| && s.relays[r].batch[i] == id;
    }
    forall id | id in s.rows ensures RowOk(c, s.rows[id]) { }
  }

  // ----- How often a row can be delivered -----

  function Completions(attempts: seq<Attempt>, id: nat): nat {
    if attempts == [] then 0
    else
      var last := attempts[|attempts| - 1];
      Completions(attempts[..|attempts| - 1], id) + One(last.row == id && last.completed)
  }

  predicate HeldAsPublished(relay: Relay, id: nat) {
    exists i :: 0 <= i < |relay.outcomes| && i < |relay.batch| && relay.batch[i] == id && relay.outcomes[i].publishedAt.Some?
  }

  /** Marked published, in the table, in some batch not yet committed, or before it was purged. */
  predicate Marked(s: Db, id: nat) {
    || id in s.purged
    || (id in s.rows && s.rows[id].publishedAt.Some?)
    || exists r :: r in s.relays && HeldAsPublished(s.relays[r], id)
  }

  predicate Counted(s: Db, id: nat) {
    Completions(s.attempts, id) <= s.crashes + One(Marked(s, id))
  }

  lemma MarkedStays(c: Config, s: Db, step: Step, next: Db, id: nat)
    requires Inv(c, s) && Do(c, s, step) == Some(next) && !step.Crash? && Marked(s, id)
    ensures Marked(next, id)
  {
    hide RelayOk, NothingLost;
    if id !in s.purged && !(id in s.rows && s.rows[id].publishedAt.Some?) {
      var r :| r in s.relays && HeldAsPublished(s.relays[r], id);
      var i :| 0 <= i < |s.relays[r].outcomes| && i < |s.relays[r].batch| && s.relays[r].batch[i] == id
               && s.relays[r].outcomes[i].publishedAt.Some?;
      if step == Commit(r) {
        CommitPublishes(c, s, r, i, next);
      } else {
        assert r in next.relays && next.relays[r].batch == s.relays[r].batch && s.relays[r].outcomes <= next.relays[r].outcomes;
        assert next.relays[r].outcomes[i] == s.relays[r].outcomes[i];
        assert HeldAsPublished(next.relays[r], id);
      }
    } else if step.Commit? && id in s.rows && s.rows[id].publishedAt.Some? {
      PublishedUntouched(c, s, step.r, id);
    }
  }

  lemma CommitPublishes(c: Config, s: Db, r: RelayId, i: nat, next: Db)
    requires Inv(c, s) && Do(c, s, Commit(r)) == Some(next) && i < |s.relays[r].batch|
    ensures s.relays[r].batch[i] in next.rows && next.rows[s.relays[r].batch[i]] == s.relays[r].outcomes[i]
  {
    assert RelayOk(c, s, s.relays[r]);
    WrittenBackAt(s.rows, s.relays[r], s.relays[r].batch[i]);
  }

  lemma PublishedUntouched(c: Config, s: Db, r: RelayId, id: nat)
    requires Inv(c, s) && r in s.relays && |s.relays[r].outcomes| == |s.relays[r].batch|
    requires id in s.rows && s.rows[id].publishedAt.Some?
    ensures id in WrittenBack(s.rows, s.relays[r]) && WrittenBack(s.rows, s.relays[r])[id] == s.rows[id]
  {
    assert RelayOk(c, s, s.relays[r]);
    WrittenBackAt(s.rows, s.relays[r], id);
  }

  /** A row up for dispatch has not been marked: it is deliverable and held by this relay alone. */
  lemma CurrentUnmarked(c: Config, s: Db, r: RelayId)
    requires Inv(c, s) && r in s.relays && |s.relays[r].outcomes| < |s.relays[r].batch|
    ensures !Marked(s, s.relays[r].batch[|s.relays[r].outcomes|])
  {
    var relay := s.relays[r];
    var id := relay.batch[|relay.outcomes|];
    assert RelayOk(c, s, relay) && id in relay.batch;
    forall q | q in s.relays ensures !HeldAsPublished(s.relays[q], id) {
      assert q != r ==> id !in s.relays[q].batch;
    }
  }

  lemma CountedStays(c: Config, s: Db, step: Step, next: Db, id: nat)
    requires Inv(c, s) && Do(c, s, step) == Some(next) && Counted(s, id)
    ensures Counted(next, id)
  {
    hide Inv, Marked;
    if step.Deliver? {
      var relay := s.relays[step.r];
      var k := |relay.outcomes|;
      assert next.attempts[..|next.attempts| - 1] == s.attempts;
      if relay.batch[k] == id && step.dispatch.Completed? {
        CurrentUnmarked(c, s, step.r);
        NowMarked(c, s, step.r, step.now, next);
      } else if Marked(s, id) {
        MarkedStays(c, s, step, next, id);
      }
    } else if !step.Crash? && Marked(s, id) {
      MarkedStays(c, s, step, next, id);
    }
  }

  lemma NowMarked(c: Config, s: Db, r: RelayId, now: int, next: Db)
    requires Do(c, s, Deliver(r, Completed, now)) == Some(next)
    ensures Marked(next, s.relays[r].batch[|s.relays[r].outcomes|])
  {
    var k := |s.relays[r].outcomes|;
    assert next.relays[r].batch[k] == s.relays[r].batch[k] && next.relays[r].outcomes[k].publishedAt.Some?;
    assert HeldAsPublished(next.relays[r], s.relays[r].batch[k]);
  }

  lemma {:induction false} CountedAlong(c: Config, s: Db, steps: seq<Step>, id: nat)
    requires Inv(c, s) && c.maxRetries > 0 && Counted(s, id) && Run(c, s, steps).Some?
    ensures Counted(Run(c, s, steps).value, id)
    decreases |steps|
  {
    hide Inv, Do, Counted;
    if steps != [] {
      var next := Do(c, s, steps[0]).value;
      StepKeeps(c, s, steps[0], next);
      CountedStays(c, s, steps[0], next, id);
      CountedAlong(c, next, steps[1..], id);
    }
  }

  /** Redelivery costs a crash: in every run a row's dispatches complete at most once more than
      polls have been lost, so a crash-free run completes each at most once. */
  lemma RedeliveryNeedsACrash(c: Config, s: Db, id: nat)
    requires c.maxRetries > 0 && Reached(c, s)
    ensures Completions(s.attempts, id) <= s.crashes + 1
    ensures s.crashes == 0 ==> Completions(s.attempts, id) <= 1
  {
    var steps :| Run(c, Init, steps) == Some(s);
    CountedAlong(c, Init, steps, id);
  }

  // ----- One relay alone is `deliver_pending` -----

  function Deliveries(r: RelayId, ends: seq<Dispatch>, now: int): seq<Step> {
    seq(|ends|, i requires 0 <= i < |ends| => Deliver(r, ends[i], now))
  }

  /** The rows whose dispatch completed. */
  function CompletedIn(batch: seq<nat>, ends: seq<Dispatch>): set<nat>
    requires |batch| == |ends|
  {
    set i | 0 <= i < |batch| && ends[i].Completed? :: batch[i]
  }

  lemma {:induction false} RunConcat(c: Config, s: Db, first: seq<Step>, middle: Db, second: seq<Step>)
    requires Run(c, s, first) == Some(middle)
    ensures Run(c, s, first + second) == Run(c, middle, second)
    decreases |first|
  {
    hide Do;
    if first == [] {
      assert first + second == second;
    } else {
      assert (first + second)[1..] == first[1..] + second;
      RunConcat(c, Do(c, s, first[0]).value, first[1..], middle, second);
    }
  }

  /** Every claimed row can end its dispatch the way `ends` says. */
  predicate CanEnd(c: Config, rows: map<nat, Row>, batch: seq<nat>, ends: seq<Dispatch>) {
    |ends| == |batch| && forall i :: 0 <= i < |batch| ==> batch[i] in rows && Ran(c, rows[batch[i]].eventType, ends[i]).Some?
  }

  function Outcomes(c: Config, rows: map<nat, Row>, batch: seq<nat>, ends: seq<Dispatch>, now: int): seq<Row>
    requires CanEnd(c, rows, batch, ends)
  {
    seq(|batch|, i requires 0 <= i < |batch| => Settle(rows[batch[i]], ends[i].Completed?, c.maxRetries, now))
  }

  lemma {:induction false} DeliverAll(c: Config, s: Db, r: RelayId, batch: seq<nat>, ends: seq<Dispatch>, now: int, k: nat)
    requires CanEnd(c, s.rows, batch, ends) && k <= |ends|
    requires r in s.relays && s.relays[r] == Relay(batch, Outcomes(c, s.rows, batch, ends, now)[..k])
    ensures
      var end := Run(c, s, Deliveries(r, ends, now)[k..]);
      && end.Some? && end.value.rows == s.rows
      && end.value.relays == s.relays[r := Relay(batch, Outcomes(c, s.rows, batch, ends, now))]
    decreases |ends| - k
  {
    var outcomes, steps := Outcomes(c, s.rows, batch, ends, now), Deliveries(r, ends, now);
    if k < |ends| {
      var next := Do(c, s, Deliver(r, ends[k], now)).value;
      assert outcomes[..k] + [outcomes[k]] == outcomes[..k + 1];
      assert next.relays[r] == Relay(batch, outcomes[..k + 1]);
      DeliverAll(c, next, r, batch, ends, now, k + 1);
      assert steps[k..][0] == Deliver(r, ends[k], now) && steps[k..][1..] == steps[k + 1..];
    } else {
      assert steps[k..] == [] && outcomes[..k] == outcomes;
      assert s.relays[r := Relay(batch, outcomes)] == s.relays;
    }
  }

  lemma WrittenBackIsSettled(c: Config, rows: map<nat, Row>, batch: seq<nat>, ends: seq<Dispatch>, now: int)
    requires CanEnd(c, rows, batch, ends) && forall i, j :: 0 <= i < j < |batch| ==> batch[i] != batch[j]
    ensures WrittenBack(rows, Relay(batch, Outcomes(c, rows, batch, ends, now)))
         == Settled(rows, batch, c.maxRetries, CompletedIn(batch, ends), now)
  {
    var relay := Relay(batch, Outcomes(c, rows, batch, ends, now));
    var written, settled := WrittenBack(rows, relay), Settled(rows, batch, c.maxRetries, CompletedIn(batch, ends), now);
    forall id ensures id in written <==> id in settled { WrittenBackAt(rows, relay, id); }
    forall id | id in written ensures written[id] == settled[id] {
      WrittenBackAt(rows, relay, id);
      if id in batch {
        var i :| 0 <= i < |batch| && batch[i] == id;
        assert id in CompletedIn(batch, ends) <==> ends[i].Completed?;
      }
    }
  }

  lemma RunSingle(c: Config, s: Db, step: Step)
    ensures Run(c, s, [step]) == Do(c, s, step)
  {
    hide Do;
    assert [step][1..] == [];
    if Do(c, s, step).Some? { assert Run(c, Do(c, s, step).value, []) == Do(c, s, step); }
  }

  lemma ClaimAll(c: Config, s: Db, r: RelayId, size: nat)
    requires s.relays == map[]
    ensures Do(c, s, Claim(r, size)) == Some(s.(relays := map[r := Relay(Batch(s.rows, size), [])]))
  {
    assert Claimable(s) == DeliverableIds(s.rows);
    assert s.relays[r := Relay(Batch(s.rows, size), [])] == map[r := Relay(Batch(s.rows, size), [])];
  }

  /** A lone relay that claims, dispatches its whole batch and commits leaves exactly the table of
      one poll in which the rows that completed are the ones delivered. */
  lemma LoneRelayIsOnePoll(c: Config, s: Db, r: RelayId, size: nat, ends: seq<Dispatch>, now: int)
    requires s.relays == map[] && CanEnd(c, s.rows, Batch(s.rows, size), ends)
    ensures
      var batch := Batch(s.rows, size);
      var end := Run(c, s, [Claim(r, size)] + Deliveries(r, ends, now) + [Commit(r)]);
      && end.Some? && end.value.relays == map[]
      && end.value.rows == Polled(s.rows, size, c.maxRetries, CompletedIn(batch, ends), now)
  {
    hide Run, WrittenBack, CompletedIn, Settle, Settled, CanEnd, DoDeliver;
    var batch, steps := Batch(s.rows, size), Deliveries(r, ends, now);
    ClaimAll(c, s, r, size);
    RunSingle(c, s, Claim(r, size));
    var claimed := Do(c, s, Claim(r, size)).value;
    assert Outcomes(c, s.rows, batch, ends, now)[..0] == [] && steps[0..] == steps;
    DeliverAll(c, claimed, r, batch, ends, now, 0);
    var done := Run(c, claimed, steps).value;
    RunConcat(c, s, [Claim(r, size)], claimed, steps);
    RunConcat(c, s, [Claim(r, size)] + steps, done, [Commit(r)]);
    RunSingle(c, done, Commit(r));
    WrittenBackIsSettled(c, s.rows, batch, ends, now);
  }
}
