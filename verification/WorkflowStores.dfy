/** The workflow repository, its service and the first-boot seed, one request at a time: versions
    are appended, a document is stored as printed and read back by the parser, and a replacement
    that would strand tasks is refused with their counts. */
module WorkflowStores {
  import opened Wrappers
  import opened Json
  import opened Definitions
  import opened Documents
  import opened DocumentLaws
  import opened DocumentParser
  import opened Tasks
  import Seed

  datatype ReplaceError =
    | Invalid(problems: seq<Problem>)
    | StatesInUse(stranded: map<string, nat>)

  /** The statuses in use that a definition does not know, with their counts. */
  function Stranded(tasks: map<nat, Task>, d: Definition): map<string, nat> {
    map status | status in CountByStatus(tasks) && !KnownName(d, status) :: CountByStatus(tasks)[status]
  }

  lemma StrandedExactly(tasks: map<nat, Task>, d: Definition)
    ensures Stranded(tasks, d) == map[] <==> forall id :: id in tasks ==> KnownName(d, tasks[id].status)
    ensures forall status :: status in Stranded(tasks, d) <==>
      !KnownName(d, status) && exists id :: id in tasks && tasks[id].status == status
    ensures forall status :: status in Stranded(tasks, d) ==>
      Stranded(tasks, d)[status] == |set id | id in tasks && tasks[id].status == status|
  {
    forall status | status in Stranded(tasks, d)
      ensures Stranded(tasks, d)[status] == |set id | id in tasks && tasks[id].status == status|
    {
      assert InState(tasks, status) == set id | id in tasks && tasks[id].status == status;
    }
    forall id | id in tasks && !KnownName(d, tasks[id].status) ensures tasks[id].status in Stranded(tasks, d) {}
  }

  /** `max(version) or 0`. */
  method MaxOrZero(versions: set<int>) returns (highest: int)
    requires forall v :: v in versions ==> v >= 1
    ensures forall v :: v in versions ==> v <= highest
    ensures if versions == {} then highest == 0 else highest in versions
  {
    highest := 0;
    var todo := versions;
    while todo != {}
      invariant todo <= versions
      invariant forall v :: v in versions && v !in todo ==> v <= highest
      invariant if versions == todo then highest == 0 else highest in versions
      decreases todo
    {
      SomeVersion(todo);
      var v :| v in todo;
      assert todo - {v} != versions;
      highest, todo := if v > highest then v else highest, todo - {v};
    }
  }

  lemma SomeVersion(versions: set<int>)
    requires versions != {}
    ensures exists v :: v in versions
  {
    if forall v :: v !in versions { assert false; }
  }

  class WorkflowStore {
    var documents: map<int, JSON>
    var tasks: map<nat, Task>
    var outbox: seq<Event>

    ghost predicate Valid()
      reads this
    {
      && (forall v :: v in documents <==> 1 <= v <= |documents|)
      && (forall v :: v in documents ==> WellFormed(documents[v]))
      && (forall id :: id in tasks ==> documents != map[] && KnownName(Denotation(documents[|documents|]), tasks[id].status))
    }

    constructor ()
      ensures Valid() && documents == map[] && tasks == map[] && outbox == []
    {
      documents, tasks, outbox := map[], map[], [];
    }

    method Highest() returns (highest: int)
      requires Valid()
      ensures highest == |documents|
    {
      hide WellFormed, Denotation;
      highest := MaxOrZero(documents.Keys);
      assert |documents| > 0 ==> |documents| in documents.Keys;
    }

    /** The highest version, parsed. It is there as soon as anything was stored, and no stored
        document fails to parse. */
    method GetActive() returns (r: Option<Workflow>)
      requires Valid()
      ensures r.Some? <==> documents != map[]
      ensures r.Some? ==> fresh(r.value) && r.value.Valid() && r.value.Value() == Denotation(documents[|documents|])
    {
      var highest := Highest();
      if highest == 0 { return None; }
      var parsed := WorkflowFromDocument(documents[highest]);
      match parsed
      case Ok(workflow) => r := Some(workflow);
      case Err(_) => assert false;
    }

    /** The repository's `replace_active`: print, append under the next version, stage, commit. */
    method Append(d: Definition, announce: bool) returns (version: int)
      requires Valid() && DocumentRules(d) && forall id :: id in tasks ==> KnownName(d, tasks[id].status)
      modifies this
      ensures Valid() && tasks == old(tasks) && version == |old(documents)| + 1
      ensures documents == old(documents)[version := Print(d)] && |documents| == version && Denotation(documents[version]) == d
      ensures outbox == old(outbox) + if announce then [WorkflowUpdated(version, Names(d.states))] else []
    {
      hide WellFormed, DocumentRules, Print, Denotation;
      RoundTrip(d);
      var highest := Highest();
      version := highest + 1;
      documents := documents[version := Print(d)];
      outbox := outbox + if announce then [WorkflowUpdated(version, Names(d.states))] else [];
    }

    /** `PUT /v1/workflow`: refused as invalid, refused because tasks would be stranded, or stored
        as the definition the document denotes. A refusal changes nothing. */
    method ReplaceActive(document: JSON) returns (r: Result<int, ReplaceError>)
      requires Valid()
      modifies this
      ensures Valid() && tasks == old(tasks)
      ensures r.Err? ==> documents == old(documents) && outbox == old(outbox)
      ensures r.Err? && r.error.Invalid? <==> !WellFormed(document)
      ensures WellFormed(document) ==>
        var d := Denotation(document);
        if Stranded(tasks, d) != map[] then r == Err(StatesInUse(Stranded(tasks, d)))
        else
          && r == Ok(|old(documents)| + 1)
          && documents == old(documents)[r.value := Print(d)] && Denotation(documents[|documents|]) == d
          && outbox == old(outbox) + [WorkflowUpdated(r.value, Names(d.states))]
      ensures WellFormed(document) && r.Err? <==>
        WellFormed(document) && exists id :: id in tasks && !KnownName(Denotation(document), tasks[id].status)
      ensures WellFormed(document) && r.Err? ==>
        && r.error.StatesInUse?
        && (forall status :: status in r.error.stranded <==>
              !KnownName(Denotation(document), status) && exists id :: id in tasks && tasks[id].status == status)
        && (forall status :: status in r.error.stranded ==>
              r.error.stranded[status] == |set id | id in tasks && tasks[id].status == status|)
    {
      hide WellFormed, DocumentRules, Print, Denotation, Stranded;
      var parsed := WorkflowFromDocument(document);
      if parsed.Err? { return Err(Invalid(parsed.error)); }
      AcceptedObeysRules(document);
      var d := parsed.value.Value();
      StrandedExactly(tasks, d);
      if Stranded(tasks, d) != map[] { return Err(StatesInUse(Stranded(tasks, d))); }
      var version := Append(d, true);
      r := Ok(version);
    }

    /** The seed stores the default once, as version 1, and leaves any existing table alone. */
    method SeedIfMissing()
      requires Valid()
      modifies this
      ensures Valid() && documents != map[] && outbox == old(outbox) && tasks == old(tasks)
      ensures old(documents) != map[] ==> documents == old(documents)
      ensures old(documents) == map[] ==> documents == map[1 := Print(Seed.DefaultDefinition())]
    {
      hide WellFormed, DocumentRules, Print, Denotation, Seed.DefaultDefinition;
      if documents == map[] {
        var w := Seed.DefaultWorkflow();
        Seed.DefaultObeysRules();
        var version := Append(w.Value(), false);
      }
    }
  }
}
