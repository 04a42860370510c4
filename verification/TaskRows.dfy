/** The task row as the object the service edits in place. A patch assigns its members one by one
    in the caller's order and may stop half-way at an empty title; the value functions in `Tasks`
    say what a completed edit amounts to. */
module TaskRows {
  import opened Wrappers
  import opened Tasks

  datatype Member =
    | TitleTo(title: string)
    | DescriptionTo(description: Option<string>)
    | StatusTo(status: string)
    | PriorityTo(priority: int)
    | Other(name: string)       // a key no task field has

  datatype EditError = EmptyTitle | UnknownFields(names: set<string>)

  function KeyOf(m: Member): string {
    match m
    case TitleTo(_) => "title"
    case DescriptionTo(_) => "description"
    case StatusTo(_) => "status"
    case PriorityTo(_) => "priority"
    case Other(name) => name
  }

  /** A dictionary's items: one per key, a foreign key being none of the four fields. */
  predicate Dictionary(members: seq<Member>) {
    && (forall i, j :: 0 <= i < j < |members| ==> KeyOf(members[i]) != KeyOf(members[j]))
    && (forall i :: 0 <= i < |members| && members[i].Other? ==> members[i].name !in {"title", "description", "status", "priority"})
  }

  function Unknown(members: seq<Member>): set<string> {
    set i | 0 <= i < |members| && members[i].Other? :: members[i].name
  }

  lemma NoneUnknown(members: seq<Member>)
    ensures Unknown(members) == {} <==> forall i :: 0 <= i < |members| ==> !members[i].Other?
  {
    forall i | 0 <= i < |members| && members[i].Other? ensures members[i].name in Unknown(members) {}
  }

  /** The members of a dictionary as a patch, whatever their order. */
  function PatchOf(members: seq<Member>): Patch {
    if members == [] then Patch(None, None, None, None)
    else
      var front := PatchOf(members[..|members| - 1]);
      match members[|members| - 1]
      case TitleTo(title) => front.(title := Some(title))
      case DescriptionTo(description) => front.(description := Some(description))
      case StatusTo(status) => front.(status := Some(status))
      case PriorityTo(priority) => front.(priority := Some(priority))
      case Other(_) => front
  }

  /** A field a dictionary has no item for is absent from its patch. */
  lemma {:induction false} AbsentField(members: seq<Member>, key: string)
    requires forall i :: 0 <= i < |members| ==> KeyOf(members[i]) != key
    ensures key == "title" ==> PatchOf(members).title.None?
    ensures key == "description" ==> PatchOf(members).description.None?
    ensures key == "status" ==> PatchOf(members).status.None?
    ensures key == "priority" ==> PatchOf(members).priority.None?
  {
    if members != [] {
      assert KeyOf(members[|members| - 1]) != key;
      AbsentField(members[..|members| - 1], key);
    }
  }

  function Assign(fold: Fold, task: Task, m: Member): Option<Task> {
    match m
    case TitleTo(title) =>
      (match CleanTitle(fold, title)
       case None => None
       case Some((clean, key)) => Some(task.(title := clean, titleKey := key)))
    case DescriptionTo(description) => Some(task.(description := description))
    case StatusTo(status) => Some(task.(status := status))
    case PriorityTo(priority) => Some(task.(priority := priority))
    case Other(_) => Some(task)
  }

  /** One more assignment is one more field of the patch. */
  lemma AssignNext(fold: Fold, task: Task, members: seq<Member>, i: nat)
    requires Dictionary(members) && i < |members| && Unknown(members) == {}
    requires ApplyPatch(fold, task, PatchOf(members[..i])).Some?
    ensures Assign(fold, ApplyPatch(fold, task, PatchOf(members[..i])).value, members[i])
         == ApplyPatch(fold, task, PatchOf(members[..i + 1]))
  {
    assert members[..i + 1][..i] == members[..i];
    NoneUnknown(members);
    AbsentField(members[..i], KeyOf(members[i]));
  }

  /** An empty title stops a patch wherever it stands among the members. */
  lemma {:induction false} TitleStays(members: seq<Member>, i: nat)
    requires Dictionary(members) && i < |members| && members[i].TitleTo?
    ensures PatchOf(members).title == Some(members[i].title)
  {
    var front := members[..|members| - 1];
    if i < |members| - 1 {
      assert front[i] == members[i];
      assert KeyOf(members[|members| - 1]) != KeyOf(members[i]);
      TitleStays(front, i);
    }
  }

  class Row {
    const id: nat
    const fold: Fold
    var title: string
    var titleKey: string
    var description: Option<string>
    var status: string
    var priority: int

    function Value(): Task
      reads this
    {
      Task(id, title, titleKey, description, status, priority)
    }

    constructor (task: Task, fold: Fold)
      ensures Value() == task && this.fold == fold
    {
      id, this.fold := task.id, fold;
      title, titleKey, description, status, priority :=
        task.title, task.titleKey, task.description, task.status, task.priority;
    }

    /** Every field, the title first: an empty title leaves the row as it was. */
    method ApplyReplace(title: string, description: Option<string>, status: string, priority: int) returns (error: Option<EditError>)
      modifies this
      ensures
        match Tasks.ApplyReplace(fold, old(Value()), title, description, status, priority)
        case None => error == Some(EmptyTitle) && Value() == old(Value())
        case Some(updated) => error.None? && Value() == updated
    {
      match CleanTitle(fold, title)
      case None => return Some(EmptyTitle);
      case Some((clean, key)) =>
        this.title, titleKey := clean, key;
        this.description := description;
        this.status := status;
        this.priority := priority;
        return None;
    }

    /** Item by item, in the dictionary's order. The order does not matter to a completed patch;
        one that stops at an empty title has assigned only what came before, and its key still
        matches its title. */
    method ApplyPatch(members: seq<Member>) returns (error: Option<EditError>)
      requires Dictionary(members)
      modifies this
      ensures Unknown(members) != {} ==> error == Some(UnknownFields(Unknown(members))) && Value() == old(Value())
      ensures Unknown(members) == {} ==>
        match Tasks.ApplyPatch(fold, old(Value()), PatchOf(members))
        case None => error == Some(EmptyTitle) && title == old(title) && titleKey == old(titleKey)
        case Some(updated) => error.None? && Value() == updated
    {
      if Unknown(members) != {} { return Some(UnknownFields(Unknown(members))); }
      NoneUnknown(members);
      for i := 0 to |members|
        invariant Tasks.ApplyPatch(fold, old(Value()), PatchOf(members[..i])) == Some(Value())
      {
        AssignNext(fold, old(Value()), members, i);
        match members[i] {
          case TitleTo(title) =>
            match CleanTitle(fold, title) {
              case None =>
                TitleStays(members, i);
                assert members[..i + 1][..i] == members[..i];
                AbsentField(members[..i], "title");
                return Some(EmptyTitle);
              case Some((clean, key)) => this.title, titleKey := clean, key;
            }
          case DescriptionTo(description) => this.description := description;
          case StatusTo(status) => this.status := status;
          case PriorityTo(priority) => this.priority := priority;
          case Other(_) => assert false;
        }
      }
      assert members[..|members|] == members;
      error := None;
    }
  }
}
