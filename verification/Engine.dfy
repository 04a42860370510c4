/** The workflow engine: entry resolution, move legality and the two `meta` guards,
    decided on an immutable definition and the caller's facts. */
module Engine {
  import opened Wrappers
  import opened Json
  import opened Definitions

  datatype Refusal =
    | UnknownStatus(status: string)
    | InvalidTransition(fromStatus: Option<string>, toStatus: string)
    | TransitionForbidden(transition: string)
    | WipLimitExceeded(state: string, current: nat)
    | RawUnknownState(name: string)  // the ValueError of `require_state`, outside the error taxonomy
    | RawTypeError                   // a guard value Python cannot compare or iterate

  datatype Context = Context(roles: set<string>, occupancy: map<string, nat>)

  function FindState(states: seq<State>, name: string): (state: State)
    requires name in Names(states)
    ensures state in states && state.name == name
  {
    if states[0].name == name then states[0] else
      assert Names(states) == [states[0].name] + Names(states[1..]);
      FindState(states[1..], name)
  }

  function DefaultEntry(d: Definition): (entry: string)
    requires ValidDefinition(d)
    ensures entry in EntryStates(d) && KnownName(d, entry)
    ensures StartsFirst(d.states, entry)
  {
    EntriesAreStates(d);
    DefaultExactly(d);
    EntryStates(d)[0]
  }

  predicate Truthy(v: JSON) {
    match v
    case Null => false
    case Bool(b) => b
    case Int(n) => n != 0
    case Float(x) => x != 0.0
    case Str(s) => s != []
    case List(items) => items != []
    case Obj(fields) => fields != map[]
  }

  function MetaOf(meta: Meta, key: string): JSON {
    if key in meta then meta[key] else Null
  }

  predicate Completes(d: Definition, status: string)
    requires KnownName(d, status)
  {
    Truthy(MetaOf(FindState(d.states, status).meta, COMPLETES_META_KEY))
  }

  /** `not roles.isdisjoint(items)`, stopping at the first hit; unhashable items raise. */
  function Meets(items: seq<JSON>, roles: set<string>): Option<bool> {
    if items == [] then Some(false)
    else if items[0].List? || items[0].Obj? then None
    else if items[0].Str? && items[0].s in roles then Some(true)
    else Meets(items[1..], roles)
  }

  function CheckRole(t: Transition, roles: set<string>): Option<Refusal> {
    var required := MetaOf(t.meta, ROLES_META_KEY);
    if !Truthy(required) then None else
      var met := match required
        case List(items) => Meets(items, roles)
        case Str(s) => Some(exists i :: 0 <= i < |s| && [s[i]] in roles)
        case Obj(fields) => Some(fields.Keys * roles != {})
        case _ => None;
      match met
      case None => Some(RawTypeError)
      case Some(true) => None
      case Some(false) => Some(TransitionForbidden(t.name))
  }

  /** `current >= limit`, where a `bool` is an `int` and anything but a number raises. */
  function AtLeast(current: nat, limit: JSON): Option<bool> {
    match limit
    case Int(n) => Some(current >= n)
    case Bool(b) => Some(current >= if b then 1 else 0)
    case Float(x) => Some(current as real >= x)
    case _ => None
  }

  function CheckWip(d: Definition, status: string, occupancy: map<string, nat>): Option<Refusal>
    requires KnownName(d, status)
  {
    var limit := MetaOf(FindState(d.states, status).meta, WIP_LIMIT_META_KEY);
    if limit.Null? then None else
      var current := if status in occupancy then occupancy[status] else 0;
      match AtLeast(current, limit)
      case None => Some(RawTypeError)
      case Some(true) => Some(WipLimitExceeded(status, current))
      case Some(false) => None
  }

  /** Only a write that enters a state declaring `wip_limit` can hit one. */
  predicate NeedsOccupancy(d: Definition, fromStatus: Option<string>, toStatus: Option<string>)
    requires ValidDefinition(d)
  {
    var target := if toStatus.None? then DefaultEntry(d) else toStatus.value;
    && Some(target) != fromStatus
    && KnownName(d, target)
    && WIP_LIMIT_META_KEY in FindState(d.states, target).meta
  }

  function EntryState(d: Definition, status: Option<string>): Result<string, Refusal>
    requires ValidDefinition(d)
  {
    if status.None? then Ok(DefaultEntry(d))
    else if !KnownName(d, status.value) then Err(UnknownStatus(status.value))
    else if status.value !in EntryStates(d) then Err(InvalidTransition(None, status.value))
    else Ok(status.value)
  }

  function ResolveEntry(d: Definition, status: Option<string>, context: Context): (r: Result<string, Refusal>)
    requires ValidDefinition(d)
    ensures r.Ok? ==> r.value in EntryStates(d) && KnownName(d, r.value)
  {
    match EntryState(d, status)
    case Err(e) => Err(e)
    case Ok(resolved) =>
      match CheckWip(d, resolved, context.occupancy)
      case Some(e) => Err(e)
      case None => Ok(resolved)
  }

  function CheckMove(d: Definition, fromStatus: string, toStatus: string, context: Context): Option<Refusal> {
    if !KnownName(d, toStatus) then Some(UnknownStatus(toStatus))
    else if toStatus == fromStatus then None
    else if !KnownName(d, fromStatus) then Some(RawUnknownState(fromStatus))
    else if (fromStatus, toStatus) !in d.transitions then Some(InvalidTransition(Some(fromStatus), toStatus))
    else
      match CheckRole(d.transitions[(fromStatus, toStatus)], context.roles)
      case Some(e) => Some(e)
      case None => CheckWip(d, toStatus, context.occupancy)
  }

  /** Fetching occupancy lazily decides exactly as fetching it always: when the engine says the
      write cannot hit a limit, the empty map and the full count give one outcome. */
  lemma LazyOccupancyDecidesAlike(d: Definition, fromStatus: Option<string>, toStatus: Option<string>,
                                  roles: set<string>, counts: map<string, nat>)
    requires ValidDefinition(d)
    requires !NeedsOccupancy(d, fromStatus, toStatus)
    ensures fromStatus.None? ==>
      ResolveEntry(d, toStatus, Context(roles, map[])) == ResolveEntry(d, toStatus, Context(roles, counts))
    ensures fromStatus.Some? && toStatus.Some? ==>
      CheckMove(d, fromStatus.value, toStatus.value, Context(roles, map[]))
      == CheckMove(d, fromStatus.value, toStatus.value, Context(roles, counts))
  {
    var target := if toStatus.None? then DefaultEntry(d) else toStatus.value;
    if KnownName(d, target) && Some(target) != fromStatus {
      assert MetaOf(FindState(d.states, target).meta, WIP_LIMIT_META_KEY) == Null;
    }
  }
}
