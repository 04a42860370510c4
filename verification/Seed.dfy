/** The definition stored at first boot: three entry states, any to any. */
module Seed {
  import opened Text
  import opened Json
  import opened Definitions
  import opened Documents

  const NEW := "new"
  const IN_PROGRESS := "in_progress"
  const COMPLETED := "completed"

  function DefaultStates(): seq<State> {
    [State(NEW, true, map[]), State(IN_PROGRESS, true, map[]),
     State(COMPLETED, true, map[COMPLETES_META_KEY := Bool(true)])]
  }

  function Move(name: string, fromState: string, toState: string): Transition {
    Transition(name, fromState, toState, map[])
  }

  function DefaultTable(n: string, p: string, c: string): TransitionTable {
    map[(n, p) := Move("Start work", n, p),
        (n, c) := Move("Complete", n, c),
        (p, c) := Move("Complete", p, c),
        (p, n) := Move("Send back", p, n),
        (c, n) := Move("Reopen", c, n),
        (c, p) := Move("Resume", c, p)]
  }

  function DefaultDefinition(): Definition {
    Definition(DefaultStates(), DefaultTable(NEW, IN_PROGRESS, COMPLETED))
  }

  lemma DefaultNames()
    ensures Names(DefaultStates()) == [NEW, IN_PROGRESS, COMPLETED]
    ensures NEW != IN_PROGRESS && NEW != COMPLETED && IN_PROGRESS != COMPLETED
    ensures forall name :: name in Names(DefaultStates()) <==> name in {NEW, IN_PROGRESS, COMPLETED}
  {
    assert |NEW| == 3 && |IN_PROGRESS| == 11 && |COMPLETED| == 9;
    var names := Names(DefaultStates());
    assert names[0] == NEW && names[1] == IN_PROGRESS && names[2] == COMPLETED;
  }

  /** The default, spelt out. */
  lemma DefaultExactly()
    ensures
      var d := DefaultDefinition();
      && Names(d.states) == ["new", "in_progress", "completed"]
      && (forall i :: 0 <= i < 3 ==> d.states[i].initial)
      && d.states[0].meta == d.states[1].meta == map[] && d.states[2].meta == map["completes" := Bool(true)]
      && d.transitions ==
           map[("new", "in_progress") := Transition("Start work", "new", "in_progress", map[]),
               ("new", "completed") := Transition("Complete", "new", "completed", map[]),
               ("in_progress", "completed") := Transition("Complete", "in_progress", "completed", map[]),
               ("in_progress", "new") := Transition("Send back", "in_progress", "new", map[]),
               ("completed", "new") := Transition("Reopen", "completed", "new", map[]),
               ("completed", "in_progress") := Transition("Resume", "completed", "in_progress", map[])]
  {
    DefaultNames();
  }

  lemma DefaultIsValid()
    ensures ValidDefinition(DefaultDefinition())
  {
    DefaultNames();
  }

  lemma DefaultStatesObeyRules(i: nat)
    requires i < 3
    ensures StateRules(DefaultStates()[i])
  {
    assert !IsSpace(DefaultStates()[i].name[0]);
  }

  lemma MoveObeysRules(name: string, fromState: string, toState: string)
    requires name != "" && !IsSpace(name[0]) && NUL !in name
    ensures TransitionRules(Move(name, fromState, toState))
  {
  }

  lemma DefaultTableObeysRules(n: string, p: string, c: string)
    ensures forall key :: key in DefaultTable(n, p, c) ==> TransitionRules(DefaultTable(n, p, c)[key])
  {
    hide TransitionRules, Move;
    MoveObeysRules("Start work", n, p);
    MoveObeysRules("Complete", n, c);
    MoveObeysRules("Complete", p, c);
    MoveObeysRules("Send back", p, n);
    MoveObeysRules("Reopen", c, n);
    MoveObeysRules("Resume", c, p);
  }

  lemma DefaultAllReachable()
    ensures AllReachable(DefaultDefinition())
  {
    var d := DefaultDefinition();
    forall name | KnownName(d, name) ensures Reachable(d, name) {
      MarkedExact(d.states, name);
      var i :| 0 <= i < |d.states| && Names(d.states)[i] == name;
      assert d.states[i].initial && d.states[i].name == name;
      EntryReachable(d, name);
    }
  }

  /** The seed obeys every rule a document must, so what it stores can be read back. */
  lemma DefaultObeysRules()
    ensures DocumentRules(DefaultDefinition())
  {
    DefaultIsValid();
    forall i | 0 <= i < 3 ensures StateRules(DefaultStates()[i]) { DefaultStatesObeyRules(i); }
    DefaultTableObeysRules(NEW, IN_PROGRESS, COMPLETED);
    DefaultAllReachable();
  }

  /** `default_workflow`: the three states, then six `allow_transition` calls, none refused. */
  method DefaultWorkflow() returns (w: Workflow)
    ensures fresh(w) && w.Valid() && w.Value() == DefaultDefinition()
  {
    DefaultIsValid();
    DefaultNames();
    w := new Workflow.Of(Definition(DefaultStates(), map[]));
    AllowAll(w, NEW, IN_PROGRESS, COMPLETED);
  }

  method AllowAll(w: Workflow, n: string, p: string, c: string)
    requires w.Valid() && w.transitions == map[]
    requires n != p && n != c && p != c
    requires KnownName(w.Value(), n) && KnownName(w.Value(), p) && KnownName(w.Value(), c)
    modifies w
    ensures w.Valid() && w.states == old(w.states) && w.transitions == DefaultTable(n, p, c)
  {
    hide ValidDefinition, Move;
    AllowTwo(w, n, "Start work", p, "Complete", c);
    AllowTwo(w, p, "Complete", c, "Send back", n);
    AllowTwo(w, c, "Reopen", n, "Resume", p);
  }

  method AllowTwo(w: Workflow, fromState: string, name0: string, to0: string, name1: string, to1: string)
    requires w.Valid() && KnownName(w.Value(), fromState) && KnownName(w.Value(), to0) && KnownName(w.Value(), to1)
    requires (fromState, to0) !in w.transitions && (fromState, to1) !in w.transitions && to0 != to1
    requires name0 != "" && !IsSpace(name0[0]) && name1 != "" && !IsSpace(name1[0])
    modifies w
    ensures w.Valid() && w.states == old(w.states)
    ensures w.transitions == old(w.transitions)[(fromState, to0) := Move(name0, fromState, to0)]
                                               [(fromState, to1) := Move(name1, fromState, to1)]
  {
    Allow(w, name0, fromState, to0);
    Allow(w, name1, fromState, to1);
  }

  method Allow(w: Workflow, name: string, fromState: string, toState: string)
    requires w.Valid() && KnownName(w.Value(), fromState) && KnownName(w.Value(), toState)
    requires (fromState, toState) !in w.transitions && name != "" && !IsSpace(name[0])
    modifies w
    ensures w.Valid() && w.states == old(w.states)
    ensures w.transitions == old(w.transitions)[(fromState, toState) := Move(name, fromState, toState)]
  {
    var e := w.AllowTransition(name, fromState, toState, map[]);
    assert e.None?;
  }
}
