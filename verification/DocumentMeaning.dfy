/** The document rules once more, on the JSON tree alone: what a caller must send to be accepted, what
    it then gets, and which fault a bad entry has. Every key is spelt out. */
module DocumentMeaning {
  import opened Wrappers
  import opened Text
  import opened Json
  import opened Definitions
  import opened Documents
  import opened DocumentLaws
  import opened DocumentParser

  // ----- The rules on the tree -----

  predicate HasText(entry: JSON, key: string) {
    entry.Obj? && key in entry.fields && entry.fields[key].Str?
  }

  function TextAt(entry: JSON, key: string): string {
    if HasText(entry, key) then entry.fields[key].s else ""
  }

  function NameIn(entry: JSON): string {
    if entry.Str? then entry.s else TextAt(entry, "name")
  }

  predicate IsInitial(entry: JSON) {
    entry.Obj? && "initial" in entry.fields && entry.fields["initial"] == Bool(true)
  }

  /** Work may start in entry `i`: it is marked, or it is the first and none is. */
  predicate Begins(raw: seq<JSON>, i: int) {
    0 <= i < |raw| && (IsInitial(raw[i]) || (i == 0 && forall j :: 0 <= j < |raw| ==> !IsInitial(raw[j])))
  }

  predicate Edge(moves: seq<JSON>, a: string, b: string) {
    exists m :: 0 <= m < |moves| && TextAt(moves[m], "from") == a && TextAt(moves[m], "to") == b
  }

  ghost predicate TreeWalk(raw: seq<JSON>, moves: seq<JSON>, path: seq<string>) {
    && path != []
    && (exists i :: Begins(raw, i) && NameIn(raw[i]) == path[0])
    && forall i :: 0 <= i < |path| - 1 ==> Edge(moves, path[i], path[i + 1])
  }

  /** Each state: a text with visible content, or an object with such a `name`, a true or false
      `initial` if any and a `wip_limit` of zero or more if any. */
  ghost predicate StateInOrder(entry: JSON) {
    && (entry.Str? || HasText(entry, "name"))
    && NonBlank(NameIn(entry))
    && (entry.Obj? && "initial" in entry.fields ==> entry.fields["initial"] in [Bool(true), Bool(false)])
    && (entry.Obj? && "wip_limit" in entry.fields ==> exists n: nat :: entry.fields["wip_limit"] == Int(n))
  }

  /** Each transition: an object with a `name` with visible content, a `from` and a `to` among the
      names, and a non-empty list of texts with visible content under `roles` if any. */
  predicate MoveInOrder(entry: JSON, names: set<string>) {
    && HasText(entry, "name") && HasText(entry, "from") && HasText(entry, "to")
    && NonBlank(TextAt(entry, "name")) && TextAt(entry, "from") in names && TextAt(entry, "to") in names
    && ("roles" in entry.fields ==>
          var roles := entry.fields["roles"];
          roles.List? && roles.items != [] && forall i :: 0 <= i < |roles.items| ==> roles.items[i].Str? && NonBlank(roles.items[i].s))
  }

  ghost predicate Entries(raw: seq<JSON>, moves: seq<JSON>) {
    && raw != [] && (forall i :: 0 <= i < |raw| ==> StateInOrder(raw[i]))
    && (forall i, j :: 0 <= i < j < |raw| ==> NameIn(raw[i]) != NameIn(raw[j]))
    && (forall i :: 0 <= i < |moves| ==> MoveInOrder(moves[i], set k | 0 <= k < |raw| :: NameIn(raw[k])))
    && (forall i, j :: 0 <= i < j < |moves| ==>
          TextAt(moves[i], "from") != TextAt(moves[j], "from") || TextAt(moves[i], "to") != TextAt(moves[j], "to"))
  }

  /** A document in order, but for reachability. */
  ghost predicate InOrder(data: JSON) {
    && data.Obj? && data.fields.Keys == {"states", "transitions"} && NulFree(data)
    && data.fields["states"].List? && data.fields["transitions"].List?
    && Entries(data.fields["states"].items, data.fields["transitions"].items)
  }

  ghost predicate Reaches(raw: seq<JSON>, moves: seq<JSON>, name: string) {
    exists path :: TreeWalk(raw, moves, path) && path[|path| - 1] == name
  }

  // ----- The two readings agree -----

  lemma StateReadsAlike(entry: JSON)
    ensures StateInOrder(entry) <==> StateEntryOk(entry)
    ensures StateEntryOk(entry) ==> StateOf(entry).name == NameIn(entry) && StateOf(entry).initial == IsInitial(entry)
    ensures StateEntryOk(entry) ==>
      StateOf(entry).meta == if entry.Obj? then entry.fields - {"name", "initial"} else map[]
  {
    if entry.Obj? && "wip_limit" in entry.fields && entry.fields["wip_limit"].Int? && entry.fields["wip_limit"].n >= 0 {
      var n: nat := entry.fields["wip_limit"].n;
      assert entry.fields["wip_limit"] == Int(n);
    }
    if entry.Obj? && "initial" in entry.fields && entry.fields["initial"].Bool? {
      assert entry.fields["initial"] == Bool(entry.fields["initial"].b);
    }
  }

  lemma MoveReadsAlike(entry: JSON, names: set<string>)
    ensures MoveInOrder(entry, names) <==> TransitionEntryOk(entry, names)
    ensures TransitionShaped(entry) ==>
      TransitionOf(entry) == Transition(TextAt(entry, "name"), TextAt(entry, "from"), TextAt(entry, "to"), entry.fields - {"name", "from", "to"})
    ensures TransitionShaped(entry) ==> PairOf(entry) == (TextAt(entry, "from"), TextAt(entry, "to"))
  {
  }

  lemma NamesReadAlike(raw: seq<JSON>)
    requires forall i :: 0 <= i < |raw| ==> StateEntryOk(raw[i])
    ensures DeclaredNames(raw) == set k | 0 <= k < |raw| :: NameIn(raw[k])
  {
    hide StateEntryOk, StateOf, NameIn;
    forall k | 0 <= k < |raw| ensures StateOf(raw[k]).name == NameIn(raw[k]) { StateReadsAlike(raw[k]); }
  }

  lemma EntriesReadAlike(raw: seq<JSON>, moves: seq<JSON>)
    ensures Entries(raw, moves) <==> StatesOk(raw) && TransitionsOk(moves, DeclaredNames(raw))
  {
    hide StateEntryOk, StateOf, NameIn, StateInOrder, MoveInOrder, TransitionEntryOk, TextAt, PairOf, TransitionShaped;
    forall i | 0 <= i < |raw|
      ensures StateInOrder(raw[i]) <==> StateEntryOk(raw[i])
      ensures StateEntryOk(raw[i]) ==> StateOf(raw[i]).name == NameIn(raw[i])
    {
      StateReadsAlike(raw[i]);
    }
    if forall i :: 0 <= i < |raw| ==> StateEntryOk(raw[i]) { NamesReadAlike(raw); }
    forall i | 0 <= i < |moves|
      ensures MoveInOrder(moves[i], DeclaredNames(raw)) <==> TransitionEntryOk(moves[i], DeclaredNames(raw))
      ensures TransitionShaped(moves[i]) ==> PairOf(moves[i]) == (TextAt(moves[i], "from"), TextAt(moves[i], "to"))
      ensures TransitionEntryOk(moves[i], DeclaredNames(raw)) ==> TransitionShaped(moves[i])
    {
      MoveReadsAlike(moves[i], DeclaredNames(raw));
      ShapeOfOk(moves[i], DeclaredNames(raw));
    }
  }

  lemma ShapeOfOk(entry: JSON, names: set<string>)
    ensures TransitionEntryOk(entry, names) ==> TransitionShaped(entry)
  {
  }

  lemma InOrderIsContent(data: JSON)
    ensures InOrder(data) <==> Structured(data) && ContentOk(data)
  {
    hide Entries, StatesOk, TransitionsOk, DeclaredNames;
    if Structured(data) { EntriesReadAlike(data.fields["states"].items, data.fields["transitions"].items); }
  }

  // ----- What an accepted document denotes -----

  /** Entry by entry: the state, with every other key as `meta`, and the transition filed under its
      pair; and no other transition. */
  lemma DenotesExactly(data: JSON)
    requires InOrder(data)
    ensures Structured(data) && ContentOk(data)
    ensures
      var d, raw, moves := Denotation(data), data.fields["states"].items, data.fields["transitions"].items;
      && |d.states| == |raw|
      && (forall i :: 0 <= i < |raw| ==>
            && d.states[i].name == NameIn(raw[i]) && d.states[i].initial == IsInitial(raw[i])
            && d.states[i].meta == if raw[i].Obj? then raw[i].fields - {"name", "initial"} else map[])
      && (forall a, b :: (a, b) in d.transitions <==> Edge(moves, a, b))
      && (forall m :: 0 <= m < |moves| ==>
            var pair := (TextAt(moves[m], "from"), TextAt(moves[m], "to"));
            pair in d.transitions && d.transitions[pair] == Transition(TextAt(moves[m], "name"), pair.0, pair.1, moves[m].fields - {"name", "from", "to"}))
  {
    InOrderIsContent(data);
    StatesDenote(data);
    MovesDenote(data);
  }

  lemma StatesDenote(data: JSON)
    requires Structured(data) && ContentOk(data)
    ensures
      var d, raw := Denotation(data), data.fields["states"].items;
      && |d.states| == |raw|
      && (forall i :: 0 <= i < |raw| ==>
            && d.states[i].name == NameIn(raw[i]) && d.states[i].initial == IsInitial(raw[i])
            && d.states[i].meta == if raw[i].Obj? then raw[i].fields - {"name", "initial"} else map[])
  {
    hide StateOf, NameIn, IsInitial, TransitionsOk, NulFree;
    var raw := data.fields["states"].items;
    forall i | 0 <= i < |raw|
      ensures StateEntryOk(raw[i]) && StateOf(raw[i]).name == NameIn(raw[i]) && StateOf(raw[i]).initial == IsInitial(raw[i])
      ensures StateOf(raw[i]).meta == if raw[i].Obj? then raw[i].fields - {"name", "initial"} else map[]
    {
      StateReadsAlike(raw[i]);
    }
  }

  lemma MovesDenote(data: JSON)
    requires Structured(data) && ContentOk(data)
    ensures
      var d, moves := Denotation(data), data.fields["transitions"].items;
      && (forall a, b :: (a, b) in d.transitions <==> Edge(moves, a, b))
      && (forall m :: 0 <= m < |moves| ==>
            var pair := (TextAt(moves[m], "from"), TextAt(moves[m], "to"));
            && moves[m].Obj? && pair in d.transitions
            && d.transitions[pair] == Transition(TextAt(moves[m], "name"), pair.0, pair.1, moves[m].fields - {"name", "from", "to"}))
  {
    hide StatesOk, NulFree, TextAt, TransitionOf, PairOf, TableOf, NonBlank, RolesOk;
    var d, moves := Denotation(data), data.fields["transitions"].items;
    var known := DeclaredNames(StatesIn(data));
    forall m | 0 <= m < |moves|
      ensures moves[m].Obj? && TransitionShaped(moves[m]) && PairOf(moves[m]) == (TextAt(moves[m], "from"), TextAt(moves[m], "to"))
      ensures TransitionOf(moves[m]) == Transition(TextAt(moves[m], "name"), TextAt(moves[m], "from"), TextAt(moves[m], "to"), moves[m].fields - {"name", "from", "to"})
    {
      assert TransitionEntryOk(moves[m], known);
      MoveReadsAlike(moves[m], known);
    }
    forall m | 0 <= m < |moves| ensures PairOf(moves[m]) in d.transitions && d.transitions[PairOf(moves[m])] == TransitionOf(moves[m]) { TableAt(moves, m); }
    forall a, b ensures (a, b) in d.transitions <==> Edge(moves, a, b) { TableHolds(moves, (a, b)); }
  }

  lemma WalksReadAlike(data: JSON, path: seq<string>)
    requires InOrder(data)
    ensures Structured(data) && ContentOk(data)
    ensures IsWalk(Denotation(data), path) <==> TreeWalk(data.fields["states"].items, data.fields["transitions"].items, path)
  {
    hide Edge, NameIn, IsInitial, InOrder, Structured, ContentOk, Denotation;
    DenotesExactly(data);
    assert data.Obj? && "states" in data.fields && "transitions" in data.fields && data.fields["states"].List? && data.fields["transitions"].List? by { TwoListsThere(data); }
    var d, raw := Denotation(data), data.fields["states"].items;
    forall i ensures StartsAt(d.states, i) <==> Begins(raw, i) {}
    if path != [] {
      if StartsIn(d.states, path[0]) { var i :| StartsAt(d.states, i) && d.states[i].name == path[0]; assert Begins(raw, i) && NameIn(raw[i]) == path[0]; }
      if i :| Begins(raw, i) && NameIn(raw[i]) == path[0] { assert StartsAt(d.states, i) && d.states[i].name == path[0]; }
    }
  }

  lemma TwoListsThere(data: JSON)
    requires InOrder(data)
    ensures data.Obj? && "states" in data.fields && "transitions" in data.fields && data.fields["states"].List? && data.fields["transitions"].List?
  {
  }

  /** Acceptance on the tree alone: the parser takes a document if and only if it is in order and every
      name it declares ends a walk along its transitions from an entry work may start in. */
  lemma AcceptedExactly(data: JSON)
    ensures WellFormed(data) <==>
      && InOrder(data)
      && forall i :: 0 <= i < |data.fields["states"].items| ==>
           Reaches(data.fields["states"].items, data.fields["transitions"].items, NameIn(data.fields["states"].items[i]))
  {
    hide NulFree, Entries, StatesOk, TransitionsOk, Denotation, NameIn, Begins, Edge, StartsIn, IsPath;
    InOrderIsContent(data);
    if InOrder(data) {
      DenotesExactly(data);
      var d, raw, moves := Denotation(data), data.fields["states"].items, data.fields["transitions"].items;
      assert d.states != [] by { DeclaresSome(data); }
      forall name ensures Reachable(d, name) <==> Reaches(raw, moves, name) {
        ReachableIsWalked(d, name);
        forall path ensures IsWalk(d, path) <==> TreeWalk(raw, moves, path) { WalksReadAlike(data, path); }
        if Reaches(raw, moves, name) {
          var path :| TreeWalk(raw, moves, path) && path[|path| - 1] == name;
          assert IsWalk(d, path);
        }
      }
      forall i | 0 <= i < |raw| ensures KnownName(d, NameIn(raw[i])) { assert Names(d.states)[i] == NameIn(raw[i]); }
      forall name | KnownName(d, name) ensures exists i :: 0 <= i < |raw| && NameIn(raw[i]) == name {
        var i :| 0 <= i < |d.states| && Names(d.states)[i] == name;
        assert NameIn(raw[i]) == name;
      }
    }
  }

  lemma DeclaresSome(data: JSON)
    requires Structured(data) && ContentOk(data)
    ensures Denotation(data).states != []
  {
  }

  // ----- Faults -----

  /** The fault of a bad state entry: the first of these that it has. */
  lemma StateFaultsExactly(entry: JSON)
    ensures ReadState(entry) == Err(NotStringOrObject) <==> !entry.Str? && !entry.Obj?
    ensures ReadState(entry) == Err(NameRequired) <==> entry.Obj? && !HasText(entry, "name")
    ensures ReadState(entry) == Err(InitialNotBoolean) <==>
      HasText(entry, "name") && "initial" in entry.fields && !entry.fields["initial"].Bool?
    ensures ReadState(entry) == Err(BadWipLimit) <==>
      && HasText(entry, "name") && ("initial" in entry.fields ==> entry.fields["initial"].Bool?)
      && "wip_limit" in entry.fields && !(entry.fields["wip_limit"].Int? && entry.fields["wip_limit"].n >= 0)
    ensures forall e :: ReadState(entry) == Err(BadState(e)) ==> e == EmptyName && !NonBlank(NameIn(entry))
    ensures forall name :: ReadState(entry) != Err(DuplicateState(name))
  {
  }

  /** The fault of a transition entry that is not an object with three texts. */
  lemma ShapeFaultsExactly(entry: JSON)
    ensures ShapeFault(entry) == Some(NotAnObject) <==> !entry.Obj?
    ensures forall names :: ShapeFault(entry) == Some(MissingFields(names)) <==>
      entry.Obj? && names == {"name", "from", "to"} - entry.fields.Keys && names != {}
    ensures forall names :: ShapeFault(entry) == Some(NotStrings(names)) <==>
      && entry.Obj? && {"name", "from", "to"} <= entry.fields.Keys
      && names == (set k | k in {"name", "from", "to"} && !HasText(entry, k)) && names != {}
  {
    if entry.Obj? {
      var missing := {"name", "from", "to"} - entry.fields.Keys;
      assert missing == RESERVED_TRANSITION_FIELDS - entry.fields.Keys;
      if missing == {} {
        forall k | k in {"name", "from", "to"} ensures k in entry.fields.Keys { assert k !in missing; }
        var bad := set k | k in {"name", "from", "to"} && !HasText(entry, k);
        assert bad == set k | k in RESERVED_TRANSITION_FIELDS && k in entry.fields && !entry.fields[k].Str?;
        assert ShapeFault(entry) == if bad != {} then Some(NotStrings(bad)) else None;
      } else {
        var k :| k in missing;
        assert !({"name", "from", "to"} <= entry.fields.Keys);
        assert ShapeFault(entry) == Some(MissingFields(missing));
      }
    }
  }
}
