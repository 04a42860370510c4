/** What the engine's verdicts mean for definitions a document can carry: the two guards say what
    `meta` declares, and no guard value makes the engine raise outside its error taxonomy. */
module GuardLaws {
  import opened Wrappers
  import opened Json
  import opened Definitions
  import opened Documents
  import opened Engine

  /** The actor holds one of the declared roles, or none is declared. */
  predicate RoleMet(t: Transition, roles: set<string>)
    requires RolesOk(t.meta)
  {
    ROLES_META_KEY in t.meta ==>
      var items := t.meta[ROLES_META_KEY].items;
      exists i :: 0 <= i < |items| && items[i].s in roles
  }

  function CountOf(occupancy: map<string, nat>, status: string): nat {
    if status in occupancy then occupancy[status] else 0
  }

  /** The state declares no limit, or holds fewer tasks than its limit. */
  predicate BelowLimit(state: State, occupancy: map<string, nat>)
    requires WipLimitOk(state.meta)
  {
    WIP_LIMIT_META_KEY in state.meta ==> CountOf(occupancy, state.name) < state.meta[WIP_LIMIT_META_KEY].n
  }

  lemma {:induction false} MeetsExactly(items: seq<JSON>, roles: set<string>)
    requires forall i :: 0 <= i < |items| ==> items[i].Str?
    ensures Meets(items, roles) == Some(exists i :: 0 <= i < |items| && items[i].s in roles)
  {
    if items != [] {
      MeetsExactly(items[1..], roles);
      if i :| 0 < i < |items| && items[i].s in roles { assert items[1..][i - 1].s in roles; }
      if i :| 0 <= i < |items[1..]| && items[1..][i].s in roles { assert items[i + 1].s in roles; }
    }
  }

  /** The role guard refuses exactly the actors who hold none of the declared roles. */
  lemma RoleGuardMeans(t: Transition, roles: set<string>)
    requires RolesOk(t.meta)
    ensures CheckRole(t, roles) == if RoleMet(t, roles) then None else Some(TransitionForbidden(t.name))
  {
    if ROLES_META_KEY in t.meta { MeetsExactly(t.meta[ROLES_META_KEY].items, roles); }
  }

  /** The limit guard refuses exactly the states that are full. */
  lemma WipGuardMeans(d: Definition, status: string, occupancy: map<string, nat>)
    requires KnownName(d, status) && WipLimitOk(FindState(d.states, status).meta)
    ensures CheckWip(d, status, occupancy) ==
      if BelowLimit(FindState(d.states, status), occupancy) then None
      else Some(WipLimitExceeded(status, CountOf(occupancy, status)))
  {
  }

  lemma StateHasRules(d: Definition, status: string)
    requires DocumentRules(d) && KnownName(d, status)
    ensures WipLimitOk(FindState(d.states, status).meta)
  {
    var i :| 0 <= i < |d.states| && d.states[i] == FindState(d.states, status);
    assert StateRules(d.states[i]);
  }

  /** A move goes through exactly when it stays put, or follows a transition whose roles the actor
      meets into a state that is not full. Authorization is judged before capacity. */
  lemma MoveVerdict(d: Definition, fromStatus: string, toStatus: string, context: Context)
    requires DocumentRules(d) && KnownName(d, fromStatus)
    ensures
      var refusal := CheckMove(d, fromStatus, toStatus, context);
      && (refusal.None? <==>
            && KnownName(d, toStatus)
            && (fromStatus == toStatus ||
                 ((fromStatus, toStatus) in d.transitions
                  && RoleMet(d.transitions[(fromStatus, toStatus)], context.roles)
                  && BelowLimit(FindState(d.states, toStatus), context.occupancy))))
      && (!KnownName(d, toStatus) ==> refusal == Some(UnknownStatus(toStatus)))
      && (KnownName(d, toStatus) && fromStatus != toStatus ==>
            if (fromStatus, toStatus) !in d.transitions then refusal == Some(InvalidTransition(Some(fromStatus), toStatus))
            else if !RoleMet(d.transitions[(fromStatus, toStatus)], context.roles)
            then refusal == Some(TransitionForbidden(d.transitions[(fromStatus, toStatus)].name))
            else if !BelowLimit(FindState(d.states, toStatus), context.occupancy)
            then refusal == Some(WipLimitExceeded(toStatus, CountOf(context.occupancy, toStatus)))
            else refusal.None?)
  {
    hide CheckRole, CheckWip, AllReachable, RoleMet, BelowLimit, StateRules, WipLimitOk, FindState, RolesOk;
    if KnownName(d, toStatus) {
      StateHasRules(d, toStatus);
      WipGuardMeans(d, toStatus, context.occupancy);
    }
    if (fromStatus, toStatus) in d.transitions {
      assert TransitionRules(d.transitions[(fromStatus, toStatus)]);
      RoleGuardMeans(d.transitions[(fromStatus, toStatus)], context.roles);
    }
  }

  /** The state a create asks for: the one it names, if work may start there, or else the first in
      which it may. */
  ghost predicate Meant(d: Definition, status: Option<string>, target: string) {
    if status.Some? then target == status.value && StartsIn(d.states, target) else StartsFirst(d.states, target)
  }

  lemma StartsOnce(states: seq<State>, a: string, b: string)
    requires StartsFirst(states, a) && StartsFirst(states, b)
    ensures a == b
  {
    var i :| StartsAt(states, i) && states[i].name == a && forall j :: 0 <= j < i ==> !StartsAt(states, j);
    var k :| StartsAt(states, k) && states[k].name == b && forall j :: 0 <= j < k ==> !StartsAt(states, j);
    assert i == k;
  }

  lemma MeantIsEntry(d: Definition, status: Option<string>, target: string)
    requires ValidDefinition(d)
    ensures Meant(d, status, target) <==>
      KnownName(d, target) && EntryState(d, status) == Ok(target)
  {
    EntriesAreStates(d);
    EntriesExactly(d, target);
    if status.None? && StartsFirst(d.states, target) { StartsOnce(d.states, target, DefaultEntry(d)); }
  }

  /** A create goes through exactly when it names a state work may start in, or none, and that state
      is not full; roles play no part. Each refusal is the one owed. */
  lemma EntryVerdict(d: Definition, status: Option<string>, context: Context)
    requires DocumentRules(d)
    ensures status.None? ==> exists target :: Meant(d, status, target)
    ensures forall target :: Meant(d, status, target) ==>
      && KnownName(d, target)
      && ResolveEntry(d, status, context) ==
           if BelowLimit(FindState(d.states, target), context.occupancy) then Ok(target)
           else Err(WipLimitExceeded(target, CountOf(context.occupancy, target)))
    ensures status.Some? && !KnownName(d, status.value) ==> ResolveEntry(d, status, context) == Err(UnknownStatus(status.value))
    ensures status.Some? && KnownName(d, status.value) && !StartsIn(d.states, status.value) ==>
      ResolveEntry(d, status, context) == Err(InvalidTransition(None, status.value))
  {
    hide CheckWip, AllReachable, BelowLimit, StateRules, WipLimitOk, FindState, StartsIn, StartsFirst, Meant;
    if status.None? { MeantIsEntry(d, status, DefaultEntry(d)); }
    if status.Some? { EntriesExactly(d, status.value); }
    forall target | Meant(d, status, target)
      ensures KnownName(d, target) && WipLimitOk(FindState(d.states, target).meta)
      ensures ResolveEntry(d, status, context) ==
        if BelowLimit(FindState(d.states, target), context.occupancy) then Ok(target)
        else Err(WipLimitExceeded(target, CountOf(context.occupancy, target)))
    {
      MeantIsEntry(d, status, target);
      StateHasRules(d, target);
      WipGuardMeans(d, target, context.occupancy);
    }
  }

  // ----- The other questions the engine answers -----

  /** Anything but null, false, a zero, and an empty string, list or object. */
  predicate Marks(v: JSON) {
    v !in [Null, Bool(false), Int(0), Float(0.0), Str(""), List([]), Obj(map[])]
  }

  /** A state completes exactly when its own `completes` is there and is something. */
  lemma CompletesExactly(d: Definition, i: nat)
    requires ValidDefinition(d) && i < |d.states|
    ensures KnownName(d, d.states[i].name)
    ensures Completes(d, d.states[i].name) <==> "completes" in d.states[i].meta && Marks(d.states[i].meta["completes"])
  {
    assert Names(d.states)[i] == d.states[i].name;
    OneState(d, i);
  }

  /** The state of a name is the one declared under it. */
  lemma OneState(d: Definition, i: nat)
    requires ValidDefinition(d) && i < |d.states| && KnownName(d, d.states[i].name)
    ensures FindState(d.states, d.states[i].name) == d.states[i]
  {
    var found := FindState(d.states, d.states[i].name);
    var k :| 0 <= k < |d.states| && d.states[k] == found;
    assert Names(d.states)[k] == Names(d.states)[i];
  }

  /** Occupancy is asked for exactly when the write enters, from elsewhere, a state that declares a
      limit. */
  lemma NeedsExactly(d: Definition, fromStatus: Option<string>, toStatus: Option<string>, i: nat)
    requires ValidDefinition(d) && i < |d.states|
    requires if toStatus.Some? then d.states[i].name == toStatus.value else StartsFirst(d.states, d.states[i].name)
    ensures NeedsOccupancy(d, fromStatus, toStatus) <==> fromStatus != Some(d.states[i].name) && "wip_limit" in d.states[i].meta
  {
    assert Names(d.states)[i] == d.states[i].name;
    OneState(d, i);
    if toStatus.None? { StartsOnce(d.states, d.states[i].name, DefaultEntry(d)); }
  }

  lemma NeedsNothingUnknown(d: Definition, fromStatus: Option<string>, toStatus: string)
    requires ValidDefinition(d) && !KnownName(d, toStatus)
    ensures !NeedsOccupancy(d, fromStatus, Some(toStatus))
  {
  }
}
