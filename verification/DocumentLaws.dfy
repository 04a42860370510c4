/** Laws of the document boundary: parsed definitions obey the rules, printing and parsing are
    inverse on them, and printing is canonical. */
module DocumentLaws {
  import opened Text
  import opened Json
  import opened Definitions
  import opened Documents

  // ----- A document in order denotes a rule-abiding definition -----

  lemma StateOfObeysRules(entry: JSON)
    requires StateEntryOk(entry) && NulFree(entry)
    ensures StateRules(StateOf(entry))
  {
    if entry.Obj? {
      forall k | k in StateOf(entry).meta ensures NUL !in k && NulFree(StateOf(entry).meta[k]) {
        assert entry.fields[k] == StateOf(entry).meta[k];
      }
    }
  }

  lemma TransitionOfObeysRules(entry: JSON, known: set<string>)
    requires TransitionEntryOk(entry, known) && NulFree(entry)
    ensures TransitionRules(TransitionOf(entry))
  {
    forall k | k in TransitionOf(entry).meta ensures NUL !in k && NulFree(TransitionOf(entry).meta[k]) {
      assert entry.fields[k] == TransitionOf(entry).meta[k];
    }
  }

  lemma DeclaredAreNames(raw: seq<JSON>, table: TransitionTable)
    requires StatesOk(raw)
    ensures DeclaredNames(raw) == NameSet(Definition(StatesOf(raw), table))
  {
    var d := Definition(StatesOf(raw), table);
    forall n | n in DeclaredNames(raw) ensures n in NameSet(d) {
      var i :| 0 <= i < |raw| && StateEntryOk(raw[i]) && StateOf(raw[i]).name == n;
      assert Names(d.states)[i] == n;
    }
    forall n | n in NameSet(d) ensures n in DeclaredNames(raw) {
      var i :| 0 <= i < |raw| && Names(d.states)[i] == n;
      assert StateEntryOk(raw[i]) && StateOf(raw[i]).name == n;
    }
  }

  lemma FiledFromEntry(moves: seq<JSON>, known: set<string>, key: Pair)
    requires TransitionsOk(moves, known) && key in TableOf(moves)
    ensures key.0 in known && key.1 in known && TableOf(moves)[key].meta.Keys !! RESERVED_TRANSITION_FIELDS
    ensures TableOf(moves)[key].fromState == key.0 && TableOf(moves)[key].toState == key.1
    ensures (forall i :: 0 <= i < |moves| ==> NulFree(moves[i])) ==> TransitionRules(TableOf(moves)[key])
  {
    TableHolds(moves, key);
    var i :| 0 <= i < |moves| && PairOf(moves[i]) == key && TableOf(moves)[key] == TransitionOf(moves[i]);
    assert TransitionEntryOk(moves[i], known);
    if NulFree(moves[i]) { TransitionOfObeysRules(moves[i], known); }
  }

  /** Once no content error is left, `Workflow(...)` cannot raise: its safety net is unreachable. */
  lemma ConstructorCannotRaise(data: JSON)
    requires Structured(data) && ContentOk(data)
    ensures ValidDefinition(Denotation(data))
  {
    var raw, moves, d := StatesIn(data), TransitionsIn(data), Denotation(data);
    DeclaredAreNames(raw, d.transitions);
    forall key | key in d.transitions ensures FiledRight(d, key) {
      FiledFromEntry(moves, DeclaredNames(raw), key);
      assert key.0 in NameSet(d) && key.1 in NameSet(d);
    }
  }

  lemma NulFreeInside(data: JSON)
    requires Structured(data) && NulFree(data)
    ensures forall i :: 0 <= i < |StatesIn(data)| ==> NulFree(StatesIn(data)[i])
    ensures forall i :: 0 <= i < |TransitionsIn(data)| ==> NulFree(TransitionsIn(data)[i])
  {
    assert NulFree(data.fields["states"]) && NulFree(data.fields["transitions"]);
  }

  /** Every accepted document denotes a definition that obeys the document rules. */
  lemma AcceptedObeysRules(data: JSON)
    requires WellFormed(data)
    ensures DocumentRules(Denotation(data))
  {
    var d, raw, moves := Denotation(data), StatesIn(data), TransitionsIn(data);
    ConstructorCannotRaise(data);
    NulFreeInside(data);
    forall i | 0 <= i < |d.states| ensures StateRules(d.states[i]) {
      StateOfObeysRules(raw[i]);
    }
    forall key | key in d.transitions ensures TransitionRules(d.transitions[key]) {
      FiledFromEntry(moves, DeclaredNames(raw), key);
    }
  }

  // ----- Parsing what was printed -----

  lemma NoClash(meta: Meta, reserved: set<string>)
    requires reserved * meta.Keys == {}
    ensures forall k :: k in meta ==> k !in reserved
  {
    assert forall k :: k in meta && k in reserved ==> k in reserved * meta.Keys;
  }

  lemma MetaReadsBack(fields: map<string, JSON>, meta: Meta, reserved: set<string>)
    requires forall k :: k in meta ==> k !in reserved
    requires forall k :: k in fields ==> k in reserved || k in meta
    requires forall k :: k in meta ==> k in fields && fields[k] == meta[k]
    ensures fields - reserved == meta
  {
  }

  lemma PrintedState(state: State)
    requires StateRules(state)
    ensures StateEntryOk(StateDocument(state)) && StateOf(StateDocument(state)) == state
    ensures NulFree(StateDocument(state))
  {
    var doc := StateDocument(state);
    if doc.Obj? {
      NoClash(state.meta, RESERVED_STATE_FIELDS);
      MetaReadsBack(doc.fields, state.meta, RESERVED_STATE_FIELDS);
      forall k | k in doc.fields ensures NUL !in k && NulFree(doc.fields[k]) {
        if k in state.meta { assert Obj(state.meta).fields[k] == doc.fields[k]; }
      }
    }
  }

  lemma PrintedTransition(t: Transition, known: set<string>)
    requires TransitionRules(t) && t.fromState in known && t.toState in known
    requires NUL !in t.fromState && NUL !in t.toState
    ensures TransitionEntryOk(TransitionDocument(t), known) && TransitionOf(TransitionDocument(t)) == t
    ensures PairOf(TransitionDocument(t)) == (t.fromState, t.toState)
    ensures NulFree(TransitionDocument(t))
  {
    var doc := TransitionDocument(t);
    NoClash(t.meta, RESERVED_TRANSITION_FIELDS);
    MetaReadsBack(doc.fields, t.meta, RESERVED_TRANSITION_FIELDS);
    forall k | k in doc.fields ensures NUL !in k && NulFree(doc.fields[k]) {
      if k in t.meta { assert Obj(t.meta).fields[k] == doc.fields[k]; }
    }
  }

  lemma PrintedStates(d: Definition)
    requires DocumentRules(d)
    ensures forall i :: 0 <= i < |d.states| ==>
      && StateEntryOk(StateDocuments(d.states)[i]) && StateOf(StateDocuments(d.states)[i]) == d.states[i]
      && NulFree(StateDocuments(d.states)[i])
    ensures DeclaredNames(StateDocuments(d.states)) == NameSet(d)
  {
    var raw := StateDocuments(d.states);
    forall i | 0 <= i < |d.states|
      ensures StateEntryOk(raw[i]) && StateOf(raw[i]) == d.states[i] && NulFree(raw[i])
    {
      PrintedState(d.states[i]);
    }
    forall n | n in NameSet(d) ensures n in DeclaredNames(raw) {
      var i :| 0 <= i < |d.states| && Names(d.states)[i] == n;
      assert StateOf(raw[i]).name == n;
    }
    forall n | n in DeclaredNames(raw) ensures n in NameSet(d) {
      var i :| 0 <= i < |raw| && StateEntryOk(raw[i]) && StateOf(raw[i]).name == n;
      assert Names(d.states)[i] == n;
    }
  }

  lemma PrintedTransitions(d: Definition)
    requires DocumentRules(d)
    ensures |TransitionDocuments(d.transitions)| == |Sorted(d.transitions.Keys)|
    ensures forall i :: 0 <= i < |TransitionDocuments(d.transitions)| ==>
      var doc, key := TransitionDocuments(d.transitions)[i], Sorted(d.transitions.Keys)[i];
      && key in d.transitions
      && TransitionEntryOk(doc, NameSet(d)) && TransitionOf(doc) == d.transitions[key] && PairOf(doc) == key
      && NulFree(doc)
  {
    var keys := Sorted(d.transitions.Keys);
    forall i | 0 <= i < |keys|
      ensures
        var doc, key := TransitionDocuments(d.transitions)[i], keys[i];
        && key in d.transitions
        && TransitionEntryOk(doc, NameSet(d)) && TransitionOf(doc) == d.transitions[key] && PairOf(doc) == key
        && NulFree(doc)
    {
      var key := keys[i];
      assert key in d.transitions.Keys;
      assert FiledRight(d, key);
      NamesAreNulFree(d, key.0);
      NamesAreNulFree(d, key.1);
      PrintedTransition(d.transitions[key], NameSet(d));
    }
  }

  lemma NamesAreNulFree(d: Definition, name: string)
    requires DocumentRules(d) && KnownName(d, name)
    ensures NUL !in name
  {
    var i :| 0 <= i < |d.states| && Names(d.states)[i] == name;
    assert StateRules(d.states[i]);
  }

  lemma PrintedStatesOk(d: Definition)
    requires DocumentRules(d)
    ensures StatesOk(StateDocuments(d.states))
  {
    var raw := StateDocuments(d.states);
    PrintedStates(d);
    forall i, j | 0 <= i < j < |raw| ensures StateOf(raw[i]).name != StateOf(raw[j]).name {
      assert Names(d.states)[i] != Names(d.states)[j];
    }
  }

  lemma PrintedTransitionsOk(d: Definition)
    requires DocumentRules(d)
    ensures TransitionsOk(TransitionDocuments(d.transitions), NameSet(d))
  {
    var moves, keys := TransitionDocuments(d.transitions), Sorted(d.transitions.Keys);
    PrintedTransitions(d);
    forall i, j | 0 <= i < j < |moves| ensures PairOf(moves[i]) != PairOf(moves[j]) {
      PairOrder(keys[i], keys[j]);
    }
  }

  lemma NulFreeTwoLists(raw: seq<JSON>, moves: seq<JSON>)
    requires forall i :: 0 <= i < |raw| ==> NulFree(raw[i])
    requires forall i :: 0 <= i < |moves| ==> NulFree(moves[i])
    ensures NulFree(Obj(map["states" := List(raw), "transitions" := List(moves)]))
  {
    assert NulFree(List(raw)) && NulFree(List(moves));
    PlainKeys();
  }

  lemma PrintedNulFree(d: Definition)
    requires DocumentRules(d)
    ensures NulFree(Print(d))
  {
    hide DocumentRules;
    PrintedStates(d);
    PrintedTransitions(d);
    NulFreeTwoLists(StateDocuments(d.states), TransitionDocuments(d.transitions));
  }

  lemma PrintedNames(d: Definition)
    requires DocumentRules(d)
    ensures DeclaredNames(StateDocuments(d.states)) == NameSet(d)
  {
    hide DocumentRules;
    PrintedStates(d);
  }

  lemma PrintedContent(d: Definition)
    requires DocumentRules(d)
    ensures Structured(Print(d)) && ContentOk(Print(d))
  {
    hide NulFree, StatesOk, TransitionsOk, DocumentRules, StateDocuments, TransitionDocuments, DeclaredNames;
    PrintedNulFree(d);
    PrintedNames(d);
    PrintedStatesOk(d);
    PrintedTransitionsOk(d);
    assert Print(d).fields.Keys == {"states", "transitions"};
  }

  lemma PlainKeys()
    ensures NUL !in "states" && NUL !in "transitions"
  {
  }

  /** Entries that spell a table, one for each of its keys, denote that table. */
  lemma TableRebuilt(table: TransitionTable, moves: seq<JSON>, keys: seq<Pair>)
    requires |moves| == |keys| && forall p :: p in keys <==> p in table
    requires forall i :: 0 <= i < |moves| ==>
      keys[i] in table && TransitionShaped(moves[i]) && PairOf(moves[i]) == keys[i] && TransitionOf(moves[i]) == table[keys[i]]
    ensures TableOf(moves) == table
  {
    forall p ensures p in TableOf(moves) <==> p in table {
      TableHolds(moves, p);
      if p in table {
        var i :| 0 <= i < |keys| && keys[i] == p;
        assert PairOf(moves[i]) == p;
      }
    }
    forall p | p in TableOf(moves) ensures TableOf(moves)[p] == table[p] {
      TableHolds(moves, p);
    }
  }

  lemma PrintedDenotes(d: Definition)
    requires DocumentRules(d) && ContentOk(Print(d))
    ensures Denotation(Print(d)) == d
  {
    PrintedStates(d);
    PrintedTransitions(d);
    TableRebuilt(d.transitions, TransitionDocuments(d.transitions), Sorted(d.transitions.Keys));
    assert StatesOf(StateDocuments(d.states)) == d.states;
  }

  /** Round trip: for every definition that obeys the document rules, its printed document is
      accepted and denotes that same definition. */
  lemma RoundTrip(d: Definition)
    requires DocumentRules(d)
    ensures WellFormed(Print(d)) && Denotation(Print(d)) == d
  {
    PrintedContent(d);
    PrintedDenotes(d);
  }

  /** Printing is canonical: two rule-abiding definitions share a document only if equal. */
  lemma PrintInjective(d: Definition, e: Definition)
    requires DocumentRules(d) && DocumentRules(e) && Print(d) == Print(e)
    ensures d == e
  {
    RoundTrip(d);
    RoundTrip(e);
  }

  /** What the store holds: a document already in printed form is accepted and printed back. */
  lemma PrintAfterParseIdempotent(data: JSON)
    requires WellFormed(data)
    ensures WellFormed(Print(Denotation(data)))
    ensures Print(Denotation(Print(Denotation(data)))) == Print(Denotation(data))
  {
    AcceptedObeysRules(data);
    RoundTrip(Denotation(data));
  }

  // ----- Which documents are already canonical -----

  /** The spelling the printer chooses: shorthand for a plain state, `initial` only when true,
      transitions in ascending order of their pairs. */
  predicate CanonicalState(entry: JSON)
    requires StateEntryOk(entry)
  {
    entry.Obj? ==>
      && ("initial" in entry.fields ==> entry.fields["initial"] == Bool(true))
      && entry.fields.Keys != {"name"}
  }

  predicate CanonicalDocument(data: JSON)
    requires Structured(data)
  {
    var raw, moves := StatesIn(data), TransitionsIn(data);
    && (forall i :: 0 <= i < |raw| ==> StateEntryOk(raw[i]) && CanonicalState(raw[i]))
    && (forall i :: 0 <= i < |moves| ==> TransitionShaped(moves[i]))
    && Ascending(PairsOf(moves))
  }

  lemma StateFixpoint(entry: JSON)
    requires StateEntryOk(entry)
    ensures StateDocument(StateOf(entry)) == entry <==> CanonicalState(entry)
  {
    if entry.Obj? {
      var state, fields := StateOf(entry), entry.fields;
      if CanonicalState(entry) {
        assert !state.initial ==> "initial" !in fields;
        assert state.initial || state.meta != map[] by {
          if k :| k in fields && k != "name" {
            assert k !in RESERVED_STATE_FIELDS ==> k in state.meta;
          }
        }
        assert StateDocument(state).fields == fields;
      }
    }
  }

  lemma TransitionFixpoint(entry: JSON)
    requires TransitionShaped(entry)
    ensures TransitionDocument(TransitionOf(entry)) == entry
  {
    assert TransitionDocument(TransitionOf(entry)).fields == entry.fields;
  }

  function PairsOf(moves: seq<JSON>): (pairs: seq<Pair>)
    requires forall i :: 0 <= i < |moves| ==> TransitionShaped(moves[i])
  {
    seq(|moves|, i requires 0 <= i < |moves| => PairOf(moves[i]))
  }

  lemma PairsAreKeys(moves: seq<JSON>, known: set<string>)
    requires TransitionsOk(moves, known)
    ensures forall p :: p in PairsOf(moves) <==> p in Sorted(TableOf(moves).Keys)
  {
    var pairs, keys := PairsOf(moves), Sorted(TableOf(moves).Keys);
    forall p ensures p in pairs <==> p in keys {
      TableHolds(moves, p);
      if p in pairs { var i :| 0 <= i < |pairs| && pairs[i] == p; assert PairOf(moves[i]) == p; }
      if p in keys { var i :| 0 <= i < |moves| && PairOf(moves[i]) == p; assert pairs[i] == p; }
    }
  }

  lemma AscendingIsFixed(moves: seq<JSON>, known: set<string>)
    requires TransitionsOk(moves, known) && Ascending(PairsOf(moves))
    ensures TransitionDocuments(TableOf(moves)) == moves
  {
    var table := TableOf(moves);
    PairsAreKeys(moves, known);
    AscendingUnique(PairsOf(moves), Sorted(table.Keys));
    forall i | 0 <= i < |moves| ensures TransitionDocuments(table)[i] == moves[i] {
      assert Sorted(table.Keys)[i] == PairOf(moves[i]);
      TableAt(moves, i);
      TransitionFixpoint(moves[i]);
    }
  }

  lemma FixedIsAscending(moves: seq<JSON>, known: set<string>)
    requires TransitionsOk(moves, known) && TransitionDocuments(TableOf(moves)) == moves
    ensures Ascending(PairsOf(moves))
  {
    var table := TableOf(moves);
    var keys := Sorted(table.Keys);
    forall i | 0 <= i < |moves| ensures PairsOf(moves)[i] == keys[i] {
      assert keys[i] in table.Keys;
      FiledFromEntry(moves, known, keys[i]);
      assert TransitionDocuments(table)[i] == TransitionDocument(table[keys[i]]);
      PrintedPair(table[keys[i]]);
    }
    assert PairsOf(moves) == keys;
  }

  lemma PrintedPair(t: Transition)
    requires TransitionShaped(TransitionDocument(t))
    requires t.meta.Keys !! RESERVED_TRANSITION_FIELDS
    ensures PairOf(TransitionDocument(t)) == (t.fromState, t.toState)
  {
  }

  lemma StatesFixpoint(raw: seq<JSON>)
    requires StatesOk(raw)
    ensures StateDocuments(StatesOf(raw)) == raw <==> forall i :: 0 <= i < |raw| ==> CanonicalState(raw[i])
  {
    var printed := StateDocuments(StatesOf(raw));
    forall i | 0 <= i < |raw| ensures printed[i] == raw[i] <==> CanonicalState(raw[i]) {
      StateFixpoint(raw[i]);
    }
    if printed == raw {
      forall i | 0 <= i < |raw| ensures CanonicalState(raw[i]) { assert printed[i] == raw[i]; }
    }
  }

  lemma TwoLists(raw: seq<JSON>, moves: seq<JSON>, fields: map<string, JSON>)
    requires fields.Keys == {"states", "transitions"}
    requires fields["states"].List? && fields["transitions"].List?
    ensures map["states" := List(raw), "transitions" := List(moves)] == fields
      <==> raw == fields["states"].items && moves == fields["transitions"].items
  {
    var two := map["states" := List(raw), "transitions" := List(moves)];
    if raw == fields["states"].items && moves == fields["transitions"].items {
      assert two.Keys == fields.Keys;
    }
  }

  /** A well-formed document is a fixed point of parse-then-print exactly when it is canonical. */
  lemma FixpointIffCanonical(data: JSON)
    requires WellFormed(data)
    ensures Print(Denotation(data)) == data <==> CanonicalDocument(data)
  {
    var raw, moves := StatesIn(data), TransitionsIn(data);
    var known := DeclaredNames(raw);
    StatesFixpoint(raw);
    if Ascending(PairsOf(moves)) { AscendingIsFixed(moves, known); }
    if TransitionDocuments(TableOf(moves)) == moves { FixedIsAscending(moves, known); }
    TwoLists(StateDocuments(StatesOf(raw)), TransitionDocuments(TableOf(moves)), data.fields);
  }
}
