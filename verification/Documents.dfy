/** Definition documents: the printer, what a well-formed document is, what it denotes, and
    every problem the parser must report about one. */
module Documents {
  import opened Text
  import opened Json
  import opened Definitions

  // ----- Printing -----

  function StateDocument(state: State): JSON {
    if !state.initial && state.meta == map[] then Str(state.name)
    else
      var head := map["name" := Str(state.name)];
      Obj((if state.initial then head["initial" := Bool(true)] else head) + state.meta)
  }

  function TransitionDocument(t: Transition): JSON {
    Obj(map["name" := Str(t.name), "from" := Str(t.fromState), "to" := Str(t.toState)] + t.meta)
  }

  function StateDocuments(states: seq<State>): seq<JSON> {
    seq(|states|, i requires 0 <= i < |states| => StateDocument(states[i]))
  }

  function TransitionDocuments(table: TransitionTable): seq<JSON> {
    var keys := Sorted(table.Keys);
    seq(|keys|, i requires 0 <= i < |keys| => TransitionDocument(table[keys[i]]))
  }

  /** `workflow_to_document`: states in column order, transitions sorted by their pair. */
  function Print(d: Definition): JSON {
    Obj(map["states" := List(StateDocuments(d.states)), "transitions" := List(TransitionDocuments(d.transitions))])
  }

  // ----- The shape of one entry -----

  predicate HasStr(entry: JSON, key: string) {
    entry.Obj? && key in entry.fields && entry.fields[key].Str?
  }

  function MetaIn(entry: JSON, reserved: set<string>): Meta
    requires entry.Obj?
  {
    entry.fields - reserved
  }

  predicate WipLimitOk(meta: Meta) {
    WIP_LIMIT_META_KEY in meta ==> meta[WIP_LIMIT_META_KEY].Int? && meta[WIP_LIMIT_META_KEY].n >= 0
  }

  predicate RolesOk(meta: Meta) {
    ROLES_META_KEY in meta ==>
      && meta[ROLES_META_KEY].List?
      && meta[ROLES_META_KEY].items != []
      && forall i :: 0 <= i < |meta[ROLES_META_KEY].items| ==>
           meta[ROLES_META_KEY].items[i].Str? && NonBlank(meta[ROLES_META_KEY].items[i].s)
  }

  /** A state is a non-blank string, or an object with a non-blank string `name`, a boolean
      `initial` if any, and a non-negative integer `wip_limit` if any. */
  predicate StateEntryOk(entry: JSON) {
    || (entry.Str? && NonBlank(entry.s))
    || (&& HasStr(entry, "name")
        && NonBlank(entry.fields["name"].s)
        && ("initial" in entry.fields ==> entry.fields["initial"].Bool?)
        && WipLimitOk(entry.fields))
  }

  function StateOf(entry: JSON): State
    requires StateEntryOk(entry)
  {
    match entry
    case Str(s) => State(s, false, map[])
    case Obj(fields) =>
      State(fields["name"].s, "initial" in fields && fields["initial"].b, MetaIn(entry, RESERVED_STATE_FIELDS))
  }

  /** An object with string `name`, `from` and `to`. */
  predicate TransitionShaped(entry: JSON) {
    HasStr(entry, "name") && HasStr(entry, "from") && HasStr(entry, "to")
  }

  function PairOf(entry: JSON): Pair
    requires TransitionShaped(entry)
  {
    (entry.fields["from"].s, entry.fields["to"].s)
  }

  function TransitionOf(entry: JSON): Transition
    requires TransitionShaped(entry)
  {
    Transition(entry.fields["name"].s, entry.fields["from"].s, entry.fields["to"].s,
               MetaIn(entry, RESERVED_TRANSITION_FIELDS))
  }

  predicate TransitionEntryOk(entry: JSON, known: set<string>) {
    && TransitionShaped(entry)
    && NonBlank(entry.fields["name"].s)
    && PairOf(entry).0 in known && PairOf(entry).1 in known
    && RolesOk(entry.fields)
  }

  // ----- Ill-formed entries, by index -----

  predicate StateRepeats(raw: seq<JSON>, i: nat)
    requires i < |raw| && StateEntryOk(raw[i])
  {
    exists j :: 0 <= j < i && StateEntryOk(raw[j]) && StateOf(raw[j]).name == StateOf(raw[i]).name
  }

  predicate StateIllFormed(raw: seq<JSON>, i: nat)
    requires i < |raw|
  {
    !StateEntryOk(raw[i]) || StateRepeats(raw, i)
  }

  ghost function DeclaredNames(raw: seq<JSON>): set<string> {
    set i | 0 <= i < |raw| && StateEntryOk(raw[i]) :: StateOf(raw[i]).name
  }

  predicate PairRepeats(raw: seq<JSON>, known: set<string>, i: nat)
    requires i < |raw| && TransitionShaped(raw[i])
  {
    exists j :: 0 <= j < i && TransitionEntryOk(raw[j], known) && PairOf(raw[j]) == PairOf(raw[i])
  }

  predicate TransitionIllFormed(raw: seq<JSON>, known: set<string>, i: nat)
    requires i < |raw|
  {
    !TransitionEntryOk(raw[i], known) || PairRepeats(raw, known, i)
  }

  // ----- Whole documents -----

  /** The structural layer: an object with exactly the two lists. */
  predicate Structured(data: JSON) {
    && data.Obj?
    && data.fields.Keys == {"states", "transitions"}
    && data.fields["states"].List? && data.fields["transitions"].List?
  }

  function StatesIn(data: JSON): seq<JSON>
    requires Structured(data)
  {
    data.fields["states"].items
  }

  function TransitionsIn(data: JSON): seq<JSON>
    requires Structured(data)
  {
    data.fields["transitions"].items
  }

  /** Every state entry is in order and no name is declared twice. */
  ghost predicate StatesOk(raw: seq<JSON>) {
    && raw != []
    && (forall i :: 0 <= i < |raw| ==> StateEntryOk(raw[i]))
    && (forall i, j :: 0 <= i < j < |raw| ==> StateOf(raw[i]).name != StateOf(raw[j]).name)
  }

  /** Every transition entry is in order over the known names and no pair is filed twice. */
  ghost predicate TransitionsOk(moves: seq<JSON>, known: set<string>) {
    && (forall i :: 0 <= i < |moves| ==> TransitionEntryOk(moves[i], known))
    && (forall i, j :: 0 <= i < j < |moves| ==> PairOf(moves[i]) != PairOf(moves[j]))
  }

  ghost predicate ContentOk(data: JSON)
    requires Structured(data)
  {
    && NulFree(data)
    && StatesOk(StatesIn(data))
    && TransitionsOk(TransitionsIn(data), DeclaredNames(StatesIn(data)))
  }

  function StatesOf(raw: seq<JSON>): seq<State>
    requires forall i :: 0 <= i < |raw| ==> StateEntryOk(raw[i])
  {
    seq(|raw|, i requires 0 <= i < |raw| => StateOf(raw[i]))
  }

  function TableOf(moves: seq<JSON>): TransitionTable
    requires forall i :: 0 <= i < |moves| ==> TransitionShaped(moves[i])
  {
    if moves == [] then map[]
    else
      var last := moves[|moves| - 1];
      TableOf(moves[..|moves| - 1])[PairOf(last) := TransitionOf(last)]
  }

  /** The definition a document stands for, once its content is in order. */
  ghost function Denotation(data: JSON): Definition
    requires Structured(data) && ContentOk(data)
  {
    Definition(StatesOf(StatesIn(data)), TableOf(TransitionsIn(data)))
  }

  /** Acceptance, said without a parser. */
  ghost predicate WellFormed(data: JSON) {
    && Structured(data)
    && ContentOk(data)
    && AllReachable(Denotation(data))
  }

  // ----- Rules on definitions -----

  predicate StateRules(state: State) {
    && MakeState(state.name, state.initial, state.meta).Ok?
    && NUL !in state.name && NulFree(Obj(state.meta))
    && WipLimitOk(state.meta)
  }

  predicate TransitionRules(t: Transition) {
    && MakeTransition(t.name, t.fromState, t.toState, t.meta).Ok?
    && NUL !in t.name && NulFree(Obj(t.meta))
    && RolesOk(t.meta)
  }

  /** The definitions a document can carry. */
  ghost predicate DocumentRules(d: Definition) {
    && ValidDefinition(d)
    && (forall i :: 0 <= i < |d.states| ==> StateRules(d.states[i]))
    && (forall key :: key in d.transitions ==> TransitionRules(d.transitions[key]))
    && AllReachable(d)
  }

  // ----- What a table holds -----

  lemma {:induction false} TableHolds(moves: seq<JSON>, key: Pair)
    requires forall i :: 0 <= i < |moves| ==> TransitionShaped(moves[i])
    ensures key in TableOf(moves) <==> exists i :: 0 <= i < |moves| && PairOf(moves[i]) == key
    ensures key in TableOf(moves) ==>
      exists i :: 0 <= i < |moves| && PairOf(moves[i]) == key && TableOf(moves)[key] == TransitionOf(moves[i])
  {
    if moves != [] {
      var front, last := moves[..|moves| - 1], moves[|moves| - 1];
      TableHolds(front, key);
      if key in TableOf(front) {
        var i :| 0 <= i < |front| && PairOf(front[i]) == key && TableOf(front)[key] == TransitionOf(front[i]);
        assert PairOf(moves[i]) == key && front[i] == moves[i];
      }
      if i :| 0 <= i < |moves| && PairOf(moves[i]) == key {
        assert i < |front| ==> PairOf(front[i]) == key;
      }
      if PairOf(last) == key {
        assert PairOf(moves[|moves| - 1]) == key && TableOf(moves)[key] == TransitionOf(moves[|moves| - 1]);
      }
    }
  }

  /** With distinct pairs, the table files each entry under its own pair. */
  lemma TableAt(moves: seq<JSON>, i: nat)
    requires forall k :: 0 <= k < |moves| ==> TransitionShaped(moves[k])
    requires forall j, k :: 0 <= j < k < |moves| ==> PairOf(moves[j]) != PairOf(moves[k])
    requires i < |moves|
    ensures PairOf(moves[i]) in TableOf(moves) && TableOf(moves)[PairOf(moves[i])] == TransitionOf(moves[i])
  {
    TableHolds(moves, PairOf(moves[i]));
  }
}
