/** The workflow definition: states, named transitions, and the class that guards them.
    `Definition` is the immutable value of a `Workflow`; the rest of the model reasons on it. */
module Definitions {
  import opened Wrappers
  import opened Text
  import opened Json
  import opened Sets

  type Meta = map<string, JSON>

  const RESERVED_STATE_FIELDS: set<string> := {"name", "initial"}
  const RESERVED_TRANSITION_FIELDS: set<string> := {"name", "from", "to"}
  const COMPLETES_META_KEY := "completes"
  const WIP_LIMIT_META_KEY := "wip_limit"
  const ROLES_META_KEY := "roles"

  datatype State = State(name: string, initial: bool, meta: Meta)

  datatype Transition = Transition(name: string, fromState: string, toState: string, meta: Meta)

  type TransitionTable = map<Pair, Transition>

  datatype Definition = Definition(states: seq<State>, transitions: TransitionTable)

  /** The `ValueError`s of the value objects, of `Workflow.__init__` and of `allow_transition`. */
  datatype ModelError =
    | EmptyName
    | ReservedMeta(clash: set<string>)
    | NoStates
    | DuplicateStates
    | WrongKey(key: Pair)
    | UnknownState(name: string)
    | AlreadyDefined(key: Pair)

  function NameAndMetaError(name: string, meta: Meta, reserved: set<string>): Option<ModelError> {
    if !NonBlank(name) then Some(EmptyName)
    else if reserved * meta.Keys != {} then Some(ReservedMeta(reserved * meta.Keys))
    else None
  }

  function MakeState(name: string, initial: bool, meta: Meta): Result<State, ModelError> {
    match NameAndMetaError(name, meta, RESERVED_STATE_FIELDS)
    case Some(e) => Err(e)
    case None => Ok(State(name, initial, meta))
  }

  function MakeTransition(name: string, fromState: string, toState: string, meta: Meta): Result<Transition, ModelError> {
    match NameAndMetaError(name, meta, RESERVED_TRANSITION_FIELDS)
    case Some(e) => Err(e)
    case None => Ok(Transition(name, fromState, toState, meta))
  }

  /** The rules of the two value objects: a name with visible content, and no `meta` key that is a
      field of the document. */
  lemma ValuesExactly(name: string, initial: bool, fromState: string, toState: string, meta: Meta)
    ensures MakeState(name, initial, meta) ==
      if !NonBlank(name) then Err(EmptyName)
      else if "name" in meta || "initial" in meta then Err(ReservedMeta({"name", "initial"} * meta.Keys))
      else Ok(State(name, initial, meta))
    ensures MakeTransition(name, fromState, toState, meta) ==
      if !NonBlank(name) then Err(EmptyName)
      else if "name" in meta || "from" in meta || "to" in meta then Err(ReservedMeta({"name", "from", "to"} * meta.Keys))
      else Ok(Transition(name, fromState, toState, meta))
  {
    assert forall k :: k in {"name", "initial"} * meta.Keys <==> k in {"name", "initial"} && k in meta;
    assert forall k :: k in {"name", "from", "to"} * meta.Keys <==> k in {"name", "from", "to"} && k in meta;
  }

  function Names(states: seq<State>): seq<string> {
    seq(|states|, i requires 0 <= i < |states| => states[i].name)
  }

  predicate Distinct<T(==)>(s: seq<T>) {
    forall i, j :: 0 <= i < j < |s| ==> s[i] != s[j]
  }

  ghost function NameSet(d: Definition): set<string> {
    set n | n in Names(d.states)
  }

  predicate KnownName(d: Definition, name: string) {
    name in Names(d.states)
  }

  predicate FiledRight(d: Definition, key: Pair)
    requires key in d.transitions
  {
    key == (d.transitions[key].fromState, d.transitions[key].toState) && KnownName(d, key.0) && KnownName(d, key.1)
  }

  /** What the constructor checks: the invariant of every `Workflow` object. */
  predicate ValidDefinition(d: Definition) {
    && d.states != []
    && Distinct(Names(d.states))
    && forall key :: key in d.transitions ==> FiledRight(d, key)
  }

  function Marked(states: seq<State>): seq<string> {
    if states == [] then []
    else (if states[0].initial then [states[0].name] else []) + Marked(states[1..])
  }

  /** States marked `initial`, or the first state. */
  function EntryStates(d: Definition): (entries: seq<string>)
    requires d.states != []
    ensures entries != []
  {
    if Marked(d.states) != [] then Marked(d.states) else [d.states[0].name]
  }

  lemma {:induction false} MarkedExact(states: seq<State>, name: string)
    ensures name in Marked(states) <==> exists i :: 0 <= i < |states| && states[i].initial && states[i].name == name
  {
    if states != [] {
      MarkedExact(states[1..], name);
      if name in Marked(states[1..]) {
        var i :| 0 <= i < |states[1..]| && states[1..][i].initial && states[1..][i].name == name;
        assert states[i + 1].initial && states[i + 1].name == name;
      }
      if i :| 0 < i < |states| && states[i].initial && states[i].name == name {
        assert states[1..][i - 1].initial && states[1..][i - 1].name == name;
      }
    }
  }

  lemma EntriesAreStates(d: Definition)
    requires d.states != []
    ensures forall e :: e in EntryStates(d) ==> KnownName(d, e)
  {
    forall e | e in EntryStates(d) ensures KnownName(d, e) {
      MarkedExact(d.states, e);
      if e in Marked(d.states) {
        var i :| 0 <= i < |d.states| && d.states[i].initial && d.states[i].name == e;
        assert Names(d.states)[i] == e;
      } else {
        assert Names(d.states)[0] == e;
      }
    }
  }

  /** A state work may start in: one marked `initial`, or the first when none is marked. */
  predicate StartsAt(states: seq<State>, i: int) {
    0 <= i < |states| && (states[i].initial || (i == 0 && forall j :: 0 <= j < |states| ==> !states[j].initial))
  }

  ghost predicate StartsIn(states: seq<State>, name: string) {
    exists i :: StartsAt(states, i) && states[i].name == name
  }

  /** The first of the states work may start in. */
  ghost predicate StartsFirst(states: seq<State>, name: string) {
    exists i :: StartsAt(states, i) && states[i].name == name && forall j :: 0 <= j < i ==> !StartsAt(states, j)
  }

  /** The entry states are exactly those. */
  lemma EntriesExactly(d: Definition, name: string)
    requires d.states != []
    ensures name in EntryStates(d) <==> StartsIn(d.states, name)
  {
    MarkedExact(d.states, name);
    if Marked(d.states) != [] {
      var m := Marked(d.states)[0];
      MarkedExact(d.states, m);
      var i :| 0 <= i < |d.states| && d.states[i].initial && d.states[i].name == m;
      if name in Marked(d.states) {
        var k :| 0 <= k < |d.states| && d.states[k].initial && d.states[k].name == name;
        assert StartsAt(d.states, k);
      }
    } else {
      forall j | 0 <= j < |d.states| ensures !d.states[j].initial { MarkedExact(d.states, d.states[j].name); }
      assert StartsAt(d.states, 0);
    }
  }

  lemma {:induction false} MarkedFirst(states: seq<State>)
    requires Marked(states) != []
    ensures exists i :: 0 <= i < |states| && states[i].initial && states[i].name == Marked(states)[0] && forall j :: 0 <= j < i ==> !states[j].initial
  {
    if !states[0].initial {
      MarkedFirst(states[1..]);
      var i :| 0 <= i < |states[1..]| && states[1..][i].initial && states[1..][i].name == Marked(states[1..])[0] && forall j :: 0 <= j < i ==> !states[1..][j].initial;
      assert states[i + 1] == states[1..][i];
      assert forall j :: 0 < j < i + 1 ==> states[j] == states[1..][j - 1];
    }
  }

  /** The default entry, the first entry state, is the first state marked `initial`, or the first
      state when none is marked. */
  lemma DefaultExactly(d: Definition)
    requires d.states != []
    ensures StartsFirst(d.states, EntryStates(d)[0])
  {
    if Marked(d.states) != [] {
      MarkedFirst(d.states);
      var i :| 0 <= i < |d.states| && d.states[i].initial && d.states[i].name == Marked(d.states)[0] && forall j :: 0 <= j < i ==> !d.states[j].initial;
      assert StartsAt(d.states, i);
    } else {
      forall j | 0 <= j < |d.states| ensures !d.states[j].initial { MarkedExact(d.states, d.states[j].name); }
      assert StartsAt(d.states, 0);
    }
  }

  /** A walk along transitions that starts in an entry state. */
  predicate IsPath(d: Definition, path: seq<string>)
    requires d.states != []
  {
    && path != []
    && path[0] in EntryStates(d)
    && forall i :: 0 <= i < |path| - 1 ==> (path[i], path[i + 1]) in d.transitions
  }

  ghost predicate Reachable(d: Definition, name: string)
    requires d.states != []
  {
    exists path :: IsPath(d, path) && path[|path| - 1] == name
  }

  ghost predicate AllReachable(d: Definition)
    requires d.states != []
  {
    forall name :: KnownName(d, name) ==> Reachable(d, name)
  }

  /** A walk along transitions from a state work may start in. */
  ghost predicate IsWalk(d: Definition, path: seq<string>) {
    && path != [] && StartsIn(d.states, path[0])
    && forall i :: 0 <= i < |path| - 1 ==> (path[i], path[i + 1]) in d.transitions
  }

  lemma ReachableIsWalked(d: Definition, name: string)
    requires d.states != []
    ensures Reachable(d, name) <==> exists path :: IsWalk(d, path) && path[|path| - 1] == name
  {
    if Reachable(d, name) {
      var path :| IsPath(d, path) && path[|path| - 1] == name;
      EntriesExactly(d, path[0]);
      assert IsWalk(d, path);
    }
    if path :| IsWalk(d, path) && path[|path| - 1] == name {
      EntriesExactly(d, path[0]);
      assert IsPath(d, path);
    }
  }

  lemma EntryReachable(d: Definition, name: string)
    requires d.states != [] && name in EntryStates(d)
    ensures Reachable(d, name)
  {
    assert IsPath(d, [name]);
  }

  lemma StepReachable(d: Definition, a: string, b: string)
    requires d.states != [] && Reachable(d, a) && (a, b) in d.transitions
    ensures Reachable(d, b)
  {
    var path :| IsPath(d, path) && path[|path| - 1] == a;
    assert IsPath(d, path + [b]);
  }

  /** A set that holds the entries and is closed under transitions holds every path's end. */
  lemma {:induction false} ClosedHoldsPath(d: Definition, s: set<string>, path: seq<string>)
    requires d.states != [] && IsPath(d, path)
    requires forall e :: e in EntryStates(d) ==> e in s
    requires forall a, b :: a in s && (a, b) in d.transitions ==> b in s
    ensures path[|path| - 1] in s
  {
    if |path| > 1 {
      var front := path[..|path| - 1];
      ClosedHoldsPath(d, s, front);
      assert (path[|path| - 2], path[|path| - 1]) in d.transitions;
    }
  }

  /** What the search may hold at any time: every entry, and nothing unreachable. */
  ghost predicate OnTrack(d: Definition, found: set<string>)
    requires d.states != []
  {
    && (forall e :: e in EntryStates(d) ==> e in found)
    && (forall n :: n in found ==> Reachable(d, n))
  }

  lemma EntriesOnTrack(d: Definition)
    requires ValidDefinition(d)
    ensures OnTrack(d, set e | e in EntryStates(d))
    ensures (set e | e in EntryStates(d)) <= NameSet(d)
  {
    forall e | e in EntryStates(d) ensures Reachable(d, e) { EntryReachable(d, e); }
    EntriesAreStates(d);
  }

  lemma SuccessorsOnTrack(d: Definition, a: string, successors: set<string>, found: set<string>)
    requires ValidDefinition(d) && OnTrack(d, found) && a in found
    requires forall b :: b in successors ==> (a, b) in d.transitions
    ensures OnTrack(d, found + successors)
    ensures successors <= NameSet(d)
  {
    forall b | b in successors ensures Reachable(d, b) && b in Names(d.states) {
      assert FiledRight(d, (a, b));
      StepReachable(d, a, b);
    }
  }

  ghost function Unseen(d: Definition, found: set<string>): nat {
    |NameSet(d) - found|
  }

  lemma UnseenShrinks(d: Definition, before: set<string>, after: set<string>)
    requires before <= after <= NameSet(d)
    ensures Unseen(d, after) < Unseen(d, before) || after == before
  {
    if n :| n in after && n !in before {
      assert NameSet(d) - after <= NameSet(d) - before - {n};
      SubsetSize(NameSet(d) - after, NameSet(d) - before - {n});
    }
  }

  lemma SplitLast<T>(s: seq<T>)
    requires s != []
    ensures forall x :: x in s <==> x == s[|s| - 1] || x in s[..|s| - 1]
  {
    assert s == s[..|s| - 1] + [s[|s| - 1]];
  }

  /** Every found state outside the frontier has had its successors found. */
  ghost predicate Processed(d: Definition, found: set<string>, frontier: seq<string>) {
    forall a, b :: a in found && (a, b) in d.transitions ==> b in found || a in frontier
  }

  lemma ProcessedStep(d: Definition, current: string, seen: set<string>, queue: seq<string>,
                      found: set<string>, frontier: seq<string>)
    requires Processed(d, seen, queue) && seen <= found
    requires forall b :: (current, b) in d.transitions ==> b in found
    requires forall a :: a in found ==> a in seen || a in frontier
    requires forall a :: a in queue ==> a == current || a in frontier
    ensures Processed(d, found, frontier)
  {
  }

  lemma ClosedIsReachable(d: Definition, found: set<string>)
    requires d.states != [] && OnTrack(d, found)
    requires Processed(d, found, [])
    ensures forall name :: name in found <==> Reachable(d, name)
  {
    forall name | Reachable(d, name) ensures name in found {
      var path :| IsPath(d, path) && path[|path| - 1] == name;
      ClosedHoldsPath(d, found, path);
    }
  }

  lemma {:induction false} NamesCardinality(names: seq<string>)
    ensures |set n | n in names| <= |names|
    ensures |set n | n in names| == |names| <==> Distinct(names)
  {
    if names != [] {
      var front, last := names[..|names| - 1], names[|names| - 1];
      NamesCardinality(front);
      assert names == front + [last];
      if last in front {
        assert (set n | n in names) == (set n | n in front);
        var i :| 0 <= i < |front| && front[i] == last;
        assert names[i] == names[|names| - 1];
      } else {
        assert (set n | n in names) == (set n | n in front) + {last};
        assert Distinct(front) ==> Distinct(names);
        assert Distinct(names) ==> Distinct(front) by {
          assert forall i :: 0 <= i < |front| ==> front[i] == names[i];
        }
      }
    }
  }

  /** One definition under edit: the constructor's rules hold after every change. */
  class Workflow {
    var states: seq<State>
    var transitions: TransitionTable

    function Value(): Definition
      reads this
    {
      Definition(states, transitions)
    }

    ghost predicate Valid()
      reads this
    {
      ValidDefinition(Value())
    }

    constructor Of(d: Definition)
      requires ValidDefinition(d)
      ensures Valid() && Value() == d
    {
      states, transitions := d.states, d.transitions;
    }

    /** `Workflow(states, transitions)`: the checks in the source's order, then the object. */
    static method Build(states: seq<State>, transitions: TransitionTable) returns (r: Result<Workflow, ModelError>)
      ensures r.Ok? <==> ValidDefinition(Definition(states, transitions))
      ensures r.Ok? ==> fresh(r.value) && r.value.Valid() && r.value.Value() == Definition(states, transitions)
      ensures r == Err(NoStates) <==> states == []
      ensures r == Err(DuplicateStates) <==> states != [] && !Distinct(Names(states))
      ensures forall key :: r == Err(WrongKey(key)) ==>
        key in transitions && key != (transitions[key].fromState, transitions[key].toState)
      ensures forall name :: r == Err(UnknownState(name)) ==>
        name !in Names(states) && exists key :: key in transitions && name in {key.0, key.1}
      ensures r.Err? ==> r.error.NoStates? || r.error.DuplicateStates? || r.error.WrongKey? || r.error.UnknownState?
    {
      if states == [] { return Err(NoStates); }
      var names := Names(states);
      var known := set n | n in names;
      NamesCardinality(names);
      if |known| != |names| { return Err(DuplicateStates); }
      var todo := transitions.Keys;
      while todo != {}
        invariant todo <= transitions.Keys
        invariant forall key :: key in transitions.Keys - todo ==> FiledRight(Definition(states, transitions), key)
      {
        var key :| key in todo;
        var t := transitions[key];
        if key != (t.fromState, t.toState) { return Err(WrongKey(key)); }
        if key.0 !in known { return Err(UnknownState(key.0)); }
        if key.1 !in known { return Err(UnknownState(key.1)); }
        todo := todo - {key};
      }
      var w := new Workflow.Of(Definition(states, transitions));
      r := Ok(w);
    }

    /** Adds one named move, or refuses and changes nothing. */
    method AllowTransition(name: string, fromState: string, toState: string, meta: Meta) returns (e: Option<ModelError>)
      requires Valid()
      modifies this
      ensures Valid() && states == old(states)
      ensures e.None? <==>
        && KnownName(old(Value()), fromState) && KnownName(old(Value()), toState)
        && (fromState, toState) !in old(transitions)
        && MakeTransition(name, fromState, toState, meta).Ok?
      ensures e.None? ==> transitions == old(transitions)[(fromState, toState) := Transition(name, fromState, toState, meta)]
      ensures e.Some? ==> transitions == old(transitions)
      ensures e == Some(UnknownState(fromState)) || e == Some(UnknownState(toState)) <==>
        !KnownName(old(Value()), fromState) || !KnownName(old(Value()), toState)
      ensures !KnownName(old(Value()), fromState) ==> e == Some(UnknownState(fromState))
      ensures KnownName(old(Value()), fromState) && KnownName(old(Value()), toState) && (fromState, toState) in old(transitions) ==>
        e == Some(AlreadyDefined((fromState, toState)))
    {
      if fromState !in Names(states) { return Some(UnknownState(fromState)); }
      if toState !in Names(states) { return Some(UnknownState(toState)); }
      var key := (fromState, toState);
      if key in transitions { return Some(AlreadyDefined(key)); }
      match MakeTransition(name, fromState, toState, meta)
      case Err(error) => return Some(error);
      case Ok(transition) =>
        var before := Value();
        transitions := transitions[key := transition];
        forall k | k in transitions ensures FiledRight(Value(), k) {
          assert k != key ==> FiledRight(before, k);
        }
        e := None;
    }

    /** The adjacency sets of the transition table, in one pass over it. */
    method Adjacency() returns (adjacency: map<string, set<string>>)
      ensures forall a, b :: (a, b) in transitions <==> a in adjacency && b in adjacency[a]
    {
      adjacency := map[];
      var todo := transitions.Keys;
      while todo != {}
        invariant todo <= transitions.Keys
        invariant forall a, b :: (a, b) in transitions.Keys - todo <==> a in adjacency && b in adjacency[a]
      {
        var key: Pair :| key in todo;
        var known := if key.0 in adjacency then adjacency[key.0] else {};
        adjacency := adjacency[key.0 := known + {key.1}];
        todo := todo - {key};
      }
    }

    /** The dead columns: states with no path from any entry state. */
    method UnreachableStates() returns (dead: set<string>)
      requires Valid()
      ensures forall name :: name in dead <==> KnownName(Value(), name) && !Reachable(Value(), name)
      ensures forall name :: name in dead <==>
        KnownName(Value(), name) && !exists path :: IsWalk(Value(), path) && path[|path| - 1] == name
    {
      forall name ensures Reachable(Value(), name) <==> exists path :: IsWalk(Value(), path) && path[|path| - 1] == name {
        ReachableIsWalked(Value(), name);
      }
      var adjacency := Adjacency();
      EntriesOnTrack(Value());
      var entries := set e | e in EntryStates(Value());
      var reachable := Search(Value(), adjacency, entries);
      dead := (set n | n in Names(states)) - reachable;
    }

    /** The worklist: pop a state, queue its unseen successors, until the frontier is empty. */
    static method Search(ghost d: Definition, adjacency: map<string, set<string>>, entries: set<string>)
      returns (reachable: set<string>)
      requires ValidDefinition(d) && OnTrack(d, entries) && entries <= NameSet(d)
      requires forall a, b :: (a, b) in d.transitions <==> a in adjacency && b in adjacency[a]
      ensures forall name :: name in reachable <==> Reachable(d, name)
    {
      reachable := entries;
      var frontier := ListOf(reachable);
      while frontier != []
        invariant OnTrack(d, reachable) && reachable <= NameSet(d)
        invariant forall n :: n in frontier ==> n in reachable
        invariant Processed(d, reachable, frontier)
        decreases Unseen(d, reachable), |frontier|
      {
        var current, rest := frontier[|frontier| - 1], frontier[..|frontier| - 1];
        SplitLast(frontier);
        var successors := if current in adjacency then adjacency[current] else {};
        SuccessorsOnTrack(d, current, successors, reachable);
        UnseenShrinks(d, reachable, reachable + successors);
        ghost var seen, queue := reachable, frontier;
        reachable, frontier := Visit(successors, reachable, rest);
        ProcessedStep(d, current, seen, queue, reachable, frontier);
      }
      ClosedIsReachable(d, reachable);
    }

    /** The body of the search: mark and queue the successors not seen before. */
    static method Visit(successors: set<string>, seen: set<string>, queue: seq<string>)
      returns (reachable: set<string>, frontier: seq<string>)
      ensures reachable == seen + successors
      ensures forall n :: n in frontier <==> n in queue || (n in successors && n !in seen)
      ensures successors <= seen ==> frontier == queue
    {
      reachable, frontier := seen, queue;
      var todo := successors;
      while todo != {}
        invariant todo <= successors
        invariant forall n :: n in reachable <==> n in seen || (n in successors && n !in todo)
        invariant forall n :: n in frontier <==> n in queue || (n in successors && n !in seen && n !in todo)
        invariant successors <= seen ==> frontier == queue
      {
        var next :| next in todo;
        todo := todo - {next};
        if next !in reachable {
          reachable := reachable + {next};
          frontier := frontier + [next];
        }
      }
    }

    /** `list(s)` of a set, in some order. */
    static method ListOf(s: set<string>) returns (list: seq<string>)
      ensures forall x :: x in list <==> x in s
    {
      list := [];
      var todo := s;
      while todo != {}
        invariant todo <= s
        invariant forall x :: x in list <==> x in s - todo
      {
        var x :| x in todo;
        list, todo := list + [x], todo - {x};
      }
    }
  }
}
