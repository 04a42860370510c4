/** The collect-all-errors parser: its loops, proved against the declarative reading of a document. */
module DocumentParser {
  import opened Wrappers
  import opened Text
  import opened Json
  import opened Definitions
  import opened Documents
  import opened DocumentLaws

  datatype StateFault =
    | NotStringOrObject
    | NameRequired
    | InitialNotBoolean
    | BadWipLimit
    | BadState(error: ModelError)
    | DuplicateState(name: string)

  datatype TransitionFault =
    | NotAnObject
    | MissingFields(names: set<string>)
    | NotStrings(names: set<string>)
    | BlankName
    | UnknownEndpoint(field: string, value: string)
    | DuplicatePair(pair: Pair)
    | BadRoles
    | BadTransition(error: ModelError)  // the safety net around `Transition(...)`

  datatype Problem =
    | DocumentNotAnObject
    | MustBeAList(key: string)
    | UnknownTopKey(key: string)
    | NulAt(path: Path)
    | NoStatesGiven
    | StateProblem(index: nat, stateFault: StateFault)
    | TransitionProblem(index: nat, transitionFault: TransitionFault)
    | BadWorkflow(error: ModelError)  // the safety net around `Workflow(...)`
    | UnreachableState(name: string)

  const LISTS: set<string> := {"states", "transitions"}

  // ----- One entry -----

  /** `_parse_state`: accepts exactly the entries in order, and reads what they denote. */
  function ReadState(entry: JSON): (r: Result<State, StateFault>)
    ensures r.Ok? <==> StateEntryOk(entry)
    ensures r.Ok? ==> r.value == StateOf(entry)
  {
    match entry
    case Str(name) => Lift(MakeState(name, false, map[]))
    case Obj(fields) =>
      if !HasStr(entry, "name") then Err(NameRequired) else
        var initial := if "initial" in fields then fields["initial"] else Bool(false);
        if !initial.Bool? then Err(InitialNotBoolean) else
          var meta := MetaIn(entry, RESERVED_STATE_FIELDS);
          if !WipLimitOk(meta) then Err(BadWipLimit) else Lift(MakeState(fields["name"].s, initial.b, meta))
    case _ => Err(NotStringOrObject)
  }

  function Lift(r: Result<State, ModelError>): Result<State, StateFault> {
    match r
    case Ok(state) => Ok(state)
    case Err(e) => Err(BadState(e))
  }

  /** The shape layer of a transition entry; a failing one has exactly one shape fault. */
  function ShapeFault(entry: JSON): (f: Option<TransitionFault>)
    ensures f.None? <==> TransitionShaped(entry)
  {
    if !entry.Obj? then Some(NotAnObject) else
      var missing := RESERVED_TRANSITION_FIELDS - entry.fields.Keys;
      if missing != {} then Some(MissingFields(missing)) else
        var bad := set k | k in RESERVED_TRANSITION_FIELDS && k in entry.fields && !entry.fields[k].Str?;
        assert "name" !in missing && "from" !in missing && "to" !in missing;
        if bad != {} then Some(NotStrings(bad)) else None
  }

  // ----- What must be reported -----

  function StateFaultAt(raw: seq<JSON>, i: nat): Option<StateFault>
    requires i < |raw|
  {
    match ReadState(raw[i])
    case Err(f) => Some(f)
    case Ok(state) => if StateRepeats(raw, i) then Some(DuplicateState(state.name)) else None
  }

  predicate StateReported(raw: seq<JSON>, e: Problem) {
    || (e == NoStatesGiven && raw == [])
    || (e.StateProblem? && e.index < |raw| && StateFaultAt(raw, e.index) == Some(e.stateFault))
  }

  predicate RuleFault(moves: seq<JSON>, known: set<string>, i: nat, f: TransitionFault)
    requires i < |moves| && TransitionShaped(moves[i])
  {
    var entry := moves[i];
    match f
    case BlankName => !NonBlank(entry.fields["name"].s)
    case UnknownEndpoint(field, value) =>
      field in {"from", "to"} && value == entry.fields[field].s && value !in known
    case DuplicatePair(pair) => pair == PairOf(entry) && PairRepeats(moves, known, i)
    case BadRoles => !RolesOk(entry.fields)
    case _ => false
  }

  predicate TransitionReported(moves: seq<JSON>, known: set<string>, e: Problem) {
    && e.TransitionProblem? && e.index < |moves|
    && match ShapeFault(moves[e.index])
       case Some(f) => e.transitionFault == f
       case None => RuleFault(moves, known, e.index, e.transitionFault)
  }

  ghost predicate ContentReported(data: JSON, e: Problem)
    requires Structured(data)
  {
    || (e.NulAt? && e.path in NulPaths(data, []))
    || StateReported(StatesIn(data), e)
    || TransitionReported(TransitionsIn(data), DeclaredNames(StatesIn(data)), e)
  }

  predicate StructureReported(data: JSON, e: Problem) {
    if !data.Obj? then e == DocumentNotAnObject else
      || (e.MustBeAList? && e.key in LISTS && !(e.key in data.fields && data.fields[e.key].List?))
      || (e.UnknownTopKey? && e.key in data.fields && e.key !in LISTS)
  }

  /** Exactly which problems the parser owes the caller: the structural layer aborts, the
      content layer collects everything, reachability is judged last. */
  ghost predicate Reported(data: JSON, e: Problem) {
    if !Structured(data) then StructureReported(data, e)
    else if !ContentOk(data) then ContentReported(data, e)
    else e.UnreachableState? && KnownName(Denotation(data), e.name) && !Reachable(Denotation(data), e.name)
  }

  // ----- Laws of the report -----

  /** Every ill-formed state entry owns a reported problem, and no well-formed one does. */
  lemma StateIndexReported(raw: seq<JSON>, i: nat)
    requires i < |raw|
    ensures StateIllFormed(raw, i) <==> exists f :: StateReported(raw, StateProblem(i, f))
  {
    if StateIllFormed(raw, i) {
      assert StateReported(raw, StateProblem(i, StateFaultAt(raw, i).value));
    }
  }

  /** Likewise for transition entries, whatever else is wrong with the document. */
  lemma TransitionIndexReported(moves: seq<JSON>, known: set<string>, i: nat)
    requires i < |moves|
    ensures TransitionIllFormed(moves, known, i) <==> exists f :: TransitionReported(moves, known, TransitionProblem(i, f))
  {
    if TransitionIllFormed(moves, known, i) {
      var e := moves[i];
      var f :=
        if ShapeFault(e).Some? then ShapeFault(e).value
        else if !NonBlank(e.fields["name"].s) then BlankName
        else if PairOf(e).0 !in known then UnknownEndpoint("from", PairOf(e).0)
        else if PairOf(e).1 !in known then UnknownEndpoint("to", PairOf(e).1)
        else if !RolesOk(e.fields) then BadRoles
        else DuplicatePair(PairOf(e));
      assert TransitionReported(moves, known, TransitionProblem(i, f));
    }
  }

  lemma SilentStatesOk(raw: seq<JSON>)
    requires forall e :: !StateReported(raw, e)
    ensures StatesOk(raw)
  {
    assert !StateReported(raw, NoStatesGiven);
    forall i | 0 <= i < |raw| ensures StateEntryOk(raw[i]) && !StateIllFormed(raw, i) { StateIndexReported(raw, i); }
    forall i, j | 0 <= i < j < |raw| ensures StateOf(raw[i]).name != StateOf(raw[j]).name {
      assert !StateIllFormed(raw, i) && !StateIllFormed(raw, j);
    }
  }

  lemma SilentTransitionsOk(moves: seq<JSON>, known: set<string>)
    requires forall e :: !TransitionReported(moves, known, e)
    ensures TransitionsOk(moves, known)
  {
    forall i | 0 <= i < |moves| ensures TransitionEntryOk(moves[i], known) && !TransitionIllFormed(moves, known, i) {
      TransitionIndexReported(moves, known, i);
    }
    forall i, j | 0 <= i < j < |moves| ensures PairOf(moves[i]) != PairOf(moves[j]) {
      assert !TransitionIllFormed(moves, known, i) && !TransitionIllFormed(moves, known, j);
    }
  }

  lemma OkStatesSilent(raw: seq<JSON>, e: Problem)
    requires StatesOk(raw)
    ensures !StateReported(raw, e)
  {
    if e.StateProblem? && e.index < |raw| {
      assert StateEntryOk(raw[e.index]) && !StateRepeats(raw, e.index);
    }
  }

  lemma OkTransitionsSilent(moves: seq<JSON>, known: set<string>, e: Problem)
    requires TransitionsOk(moves, known)
    ensures !TransitionReported(moves, known, e)
  {
    if e.TransitionProblem? && e.index < |moves| {
      assert TransitionEntryOk(moves[e.index], known);
      assert !PairRepeats(moves, known, e.index);
    }
  }

  /** No content error is collected exactly when the content is in order. */
  lemma ContentOkIffSilent(data: JSON)
    requires Structured(data)
    ensures ContentOk(data) <==> forall e :: !ContentReported(data, e)
  {
    var raw, moves := StatesIn(data), TransitionsIn(data);
    NulPathsDecideNulFree(data, []);
    if ContentOk(data) {
      forall e ensures !ContentReported(data, e) {
        OkStatesSilent(raw, e);
        OkTransitionsSilent(moves, DeclaredNames(raw), e);
      }
    } else if forall e :: !ContentReported(data, e) {
      if p :| p in NulPaths(data, []) { assert ContentReported(data, NulAt(p)); }
      forall e ensures !StateReported(raw, e) && !TransitionReported(moves, DeclaredNames(raw), e) {
        assert !ContentReported(data, e);
      }
      SilentStatesOk(raw);
      SilentTransitionsOk(moves, DeclaredNames(raw));
    }
  }

  /** Acceptance is exact: a document is well-formed if and only if nothing is to be reported. */
  lemma AcceptedIffSilent(data: JSON)
    ensures WellFormed(data) <==> forall e :: !Reported(data, e)
  {
    if !Structured(data) {
      var e :=
        if !data.Obj? then DocumentNotAnObject
        else if k :| k in LISTS && !(k in data.fields && data.fields[k].List?) then MustBeAList(k)
        else var k :| k in data.fields && k !in LISTS; UnknownTopKey(k);
      assert Reported(data, e);
    } else if !ContentOk(data) {
      ContentOkIffSilent(data);
      var e :| ContentReported(data, e);
      assert Reported(data, e);
    } else if !AllReachable(Denotation(data)) {
      var name :| KnownName(Denotation(data), name) && !Reachable(Denotation(data), name);
      assert Reported(data, UnreachableState(name));
    }
  }

  // ----- The loops -----

  /** `_reject_nul_bytes`: the recursive screen over the whole tree. */
  method RejectNulBytes(v: JSON, path: Path) returns (errors: seq<Problem>)
    ensures forall e :: e in errors <==> e.NulAt? && e.path in NulPaths(v, path)
    decreases v, 1
  {
    errors := [];
    match v
    case Str(s) =>
      if NUL in s { errors := [NulAt(path)]; }
    case List(items) =>
      var i := 0;
      while i < |items|
        invariant 0 <= i <= |items|
        invariant forall e :: e in errors <==>
          e.NulAt? && exists k :: 0 <= k < i && e.path in NulPaths(items[k], path + [Index(k)])
      {
        var more := RejectNulBytes(items[i], path + [Index(i)]);
        errors := errors + more;
        i := i + 1;
      }
    case Obj(fields) =>
      errors := RejectNulFields(v, path);
    case _ =>
  }

  /** The object case: each key and each value, in the dictionary's order. */
  method RejectNulFields(v: JSON, path: Path) returns (errors: seq<Problem>)
    requires v.Obj?
    ensures forall e :: e in errors <==> e.NulAt? && e.path in NulPaths(v, path)
    decreases v, 0
  {
    errors := [];
    var fields := v.fields;
    var todo := fields.Keys;
    while todo != {}
      invariant todo <= fields.Keys
      invariant forall e :: e in errors <==>
        e.NulAt? && exists k :: k in fields && k !in todo && NulUnder(fields, path, k, e.path)
    {
      var key :| key in todo;
      if NUL in key { errors := errors + [NulAt(path + [Key(key)])]; }
      var more := RejectNulBytes(fields[key], path + [Key(key)]);
      errors := errors + more;
      todo := todo - {key};
    }
  }

  ghost predicate NulUnder(fields: map<string, JSON>, path: Path, k: string, p: Path)
    requires k in fields
  {
    (NUL in k && p == path + [Key(k)]) || p in NulPaths(fields[k], path + [Key(k)])
  }

  /** `_parse_states`: keep the first entry of each name, report every other one. */
  method ParseStates(raw: seq<JSON>) returns (states: seq<State>, errors: seq<Problem>)
    ensures forall e :: e in errors <==> StateReported(raw, e)
    ensures (set s | s in states :: s.name) == DeclaredNames(raw)
    ensures StatesOk(raw) ==> states == StatesOf(raw)
  {
    states, errors := [], if raw == [] then [NoStatesGiven] else [];
    var seen: set<string> := {};
    var i := 0;
    while i < |raw|
      invariant 0 <= i <= |raw|
      invariant forall e :: e in errors <==> StateReportedBefore(raw, i, e)
      invariant seen == DeclaredNames(raw[..i]) == set s | s in states :: s.name
      invariant StatesOk(raw) ==> states == StatesOf(raw[..i])
    {
      DeclaredGrows(raw, i);
      match ReadState(raw[i]) {
        case Err(fault) =>
          errors := errors + [StateProblem(i, fault)];
        case Ok(state) =>
          if state.name in seen {
            errors := errors + [StateProblem(i, DuplicateState(state.name))];
          } else {
            seen := seen + {state.name};
            states := states + [state];
          }
      }
      i := i + 1;
    }
    assert raw[..|raw|] == raw;
  }

  predicate StateReportedBefore(raw: seq<JSON>, i: nat, e: Problem) {
    StateReported(raw, e) && (e.StateProblem? ==> e.index < i)
  }

  lemma DeclaredGrows(raw: seq<JSON>, i: nat)
    requires i < |raw|
    ensures DeclaredNames(raw[..i + 1]) ==
      DeclaredNames(raw[..i]) + if StateEntryOk(raw[i]) then {StateOf(raw[i]).name} else {}
    ensures StateEntryOk(raw[i]) ==> (StateOf(raw[i]).name in DeclaredNames(raw[..i]) <==> StateRepeats(raw, i))
  {
    var before, after := raw[..i], raw[..i + 1];
    forall n | n in DeclaredNames(after) ensures n in DeclaredNames(before) || (StateEntryOk(raw[i]) && n == StateOf(raw[i]).name) {
      var j :| 0 <= j < |after| && StateEntryOk(after[j]) && StateOf(after[j]).name == n;
      assert j < i ==> before[j] == after[j];
    }
    forall n | n in DeclaredNames(before) ensures n in DeclaredNames(after) {
      var j :| 0 <= j < |before| && StateEntryOk(before[j]) && StateOf(before[j]).name == n;
      assert after[j] == before[j];
    }
    assert after[i] == raw[i];
    if StateEntryOk(raw[i]) && StateRepeats(raw, i) {
      var j :| 0 <= j < i && StateEntryOk(raw[j]) && StateOf(raw[j]).name == StateOf(raw[i]).name;
      assert before[j] == raw[j];
    }
    if StateEntryOk(raw[i]) && StateOf(raw[i]).name in DeclaredNames(before) {
      var j :| 0 <= j < |before| && StateEntryOk(before[j]) && StateOf(before[j]).name == StateOf(raw[i]).name;
      assert before[j] == raw[j];
    }
  }

  /** `_parse_transitions`: a table of the entries in order, and every rule each other entry breaks. */
  method ParseTransitions(moves: seq<JSON>, known: set<string>) returns (table: TransitionTable, errors: seq<Problem>)
    ensures forall e :: e in errors <==> TransitionReported(moves, known, e)
    ensures TransitionsOk(moves, known) ==> table == TableOf(moves)
  {
    table, errors := map[], [];
    var i := 0;
    while i < |moves|
      invariant 0 <= i <= |moves|
      invariant forall e :: e in errors <==> TransitionReported(moves, known, e) && e.index < i
      invariant forall p :: p in table <==> FiledBefore(moves, known, i, p)
      invariant TransitionsOk(moves, known) ==> table == TableOf(moves[..i])
    {
      var problems, added := ParseTransition(moves, known, i, table);
      if TransitionEntryOk(moves[i], known) { assert TransitionsOk(moves, known) ==> !PairRepeats(moves, known, i); }
      FiledGrows(moves, known, i);
      assert moves[..i + 1][..i] == moves[..i];
      errors, table := errors + problems, added;
      i := i + 1;
    }
    assert moves[..|moves|] == moves;
  }

  /** The table has this pair: some earlier entry in order carries it. */
  predicate FiledBefore(moves: seq<JSON>, known: set<string>, i: nat, p: Pair)
    requires i <= |moves|
  {
    exists j :: 0 <= j < i && TransitionEntryOk(moves[j], known) && PairOf(moves[j]) == p
  }

  lemma FiledGrows(moves: seq<JSON>, known: set<string>, i: nat)
    requires i < |moves|
    ensures forall p :: FiledBefore(moves, known, i + 1, p) <==>
      FiledBefore(moves, known, i, p) || (TransitionEntryOk(moves[i], known) && PairOf(moves[i]) == p)
  {
    forall p | FiledBefore(moves, known, i, p) ensures FiledBefore(moves, known, i + 1, p) {
      var j :| 0 <= j < i && TransitionEntryOk(moves[j], known) && PairOf(moves[j]) == p;
      assert j < i + 1;
    }
    if TransitionEntryOk(moves[i], known) { assert FiledBefore(moves, known, i + 1, PairOf(moves[i])); }
  }

  /** One step of the loop: the entry's problems, or the table with the entry filed. When rules
      hold, `Transition(...)` cannot raise, so the net around it catches nothing. */
  method ParseTransition(moves: seq<JSON>, known: set<string>, i: nat, parsed: TransitionTable)
    returns (problems: seq<Problem>, table: TransitionTable)
    requires i < |moves|
    requires forall p :: p in parsed <==> FiledBefore(moves, known, i, p)
    ensures forall e :: e in problems <==> TransitionReported(moves, known, e) && e.index == i
    ensures !TransitionIllFormed(moves, known, i) ==> table == parsed[PairOf(moves[i]) := TransitionOf(moves[i])]
    ensures TransitionIllFormed(moves, known, i) ==> table == parsed
  {
    table := parsed;
    var entry := moves[i];
    match ShapeFault(entry)
    case Some(fault) =>
      problems := [TransitionProblem(i, fault)];
    case None =>
      var name, pair := entry.fields["name"].s, PairOf(entry);
      var meta := MetaIn(entry, RESERVED_TRANSITION_FIELDS);
      problems := if NonBlank(name) then [] else [TransitionProblem(i, BlankName)];
      if pair.0 !in known { problems := problems + [TransitionProblem(i, UnknownEndpoint("from", pair.0))]; }
      if pair.1 !in known { problems := problems + [TransitionProblem(i, UnknownEndpoint("to", pair.1))]; }
      if pair in parsed { problems := problems + [TransitionProblem(i, DuplicatePair(pair))]; }
      if !RolesOk(meta) { problems := problems + [TransitionProblem(i, BadRoles)]; }
      if problems == [] {
        var made := MakeTransition(name, pair.0, pair.1, meta);
        assert made.Ok?;
        table := parsed[pair := made.value];
      }
  }

  /** The content layer: all three screens run, and their problems are collected. */
  method ParseContent(data: JSON) returns (states: seq<State>, table: TransitionTable, errors: seq<Problem>)
    requires Structured(data)
    ensures forall e :: e in errors <==> ContentReported(data, e)
    ensures errors == [] <==> ContentOk(data)
    ensures ContentOk(data) ==> Definition(states, table) == Denotation(data)
  {
    var nulErrors := RejectNulBytes(data, []);
    var stateErrors, transitionErrors;
    states, stateErrors := ParseStates(StatesIn(data));
    table, transitionErrors := ParseTransitions(TransitionsIn(data), set s | s in states :: s.name);
    errors := nulErrors + stateErrors + transitionErrors;
    ContentOkIffSilent(data);
    if errors != [] { assert ContentReported(data, errors[0]); }
  }

  /** `workflow_from_document`: exactly the well-formed documents are accepted, as what they
      denote; every other one is refused with exactly the problems owed. */
  method WorkflowFromDocument(data: JSON) returns (r: Result<Workflow, seq<Problem>>)
    ensures r.Ok? <==> WellFormed(data)
    ensures r.Ok? ==> fresh(r.value) && r.value.Valid() && r.value.Value() == Denotation(data)
    ensures r.Err? ==> r.error != [] && forall e :: e in r.error <==> Reported(data, e)
  {
    var problems := ParseStructure(data);
    if problems != [] { return Err(problems); }
    var states, table, errors := ParseContent(data);
    if errors != [] { return Err(errors); }
    ConstructorCannotRaise(data);
    var built := Workflow.Build(states, table);
    assert built.Ok?;
    problems := JudgeReachability(built.value);
    r := if problems == [] then Ok(built.value) else Err(problems);
  }

  method JudgeReachability(w: Workflow) returns (problems: seq<Problem>)
    requires w.Valid()
    ensures forall e :: e in problems <==>
      e.UnreachableState? && KnownName(w.Value(), e.name) && !Reachable(w.Value(), e.name)
    ensures problems == [] <==> AllReachable(w.Value())
  {
    var dead := w.UnreachableStates();
    problems := [];
    var todo := dead;
    while todo != {}
      invariant todo <= dead
      invariant forall e :: e in problems <==> e.UnreachableState? && e.name in dead && e.name !in todo
    {
      var name :| name in todo;
      problems, todo := problems + [UnreachableState(name)], todo - {name};
    }
    assert forall name :: name in dead ==> UnreachableState(name) in problems;
    if problems != [] { assert problems[0] in problems; }
  }

  lemma StructuredIffSilent(data: JSON)
    ensures Structured(data) <==> forall e :: !StructureReported(data, e)
  {
    if !data.Obj? {
      assert StructureReported(data, DocumentNotAnObject);
    } else if forall e :: !StructureReported(data, e) {
      forall k ensures k in data.fields <==> k in LISTS {
        assert !StructureReported(data, UnknownTopKey(k)) && !StructureReported(data, MustBeAList(k));
      }
      assert !StructureReported(data, MustBeAList("states")) && !StructureReported(data, MustBeAList("transitions"));
    }
  }

  /** `_parse_document`: the guard clauses that abort. */
  method ParseStructure(data: JSON) returns (problems: seq<Problem>)
    ensures problems == [] <==> Structured(data)
    ensures forall e :: e in problems <==> !Structured(data) && StructureReported(data, e)
  {
    if !data.Obj? { return [DocumentNotAnObject]; }
    var fields := data.fields;
    problems := [];
    if !("states" in fields && fields["states"].List?) { problems := problems + [MustBeAList("states")]; }
    if !("transitions" in fields && fields["transitions"].List?) { problems := problems + [MustBeAList("transitions")]; }
    var extra := fields.Keys - LISTS;
    while extra != {}
      invariant extra <= fields.Keys - LISTS
      invariant forall e :: e in problems <==>
        StructureReported(data, e) && (e.UnknownTopKey? ==> e.key !in extra)
    {
      var key :| key in extra;
      problems := problems + [UnknownTopKey(key)];
      extra := extra - {key};
    }
    StructuredIffSilent(data);
    if problems != [] { assert StructureReported(data, problems[0]); }
  }
}
