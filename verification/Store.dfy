/** The task, tag and join tables with the outbox, and what resolving and staging a task's tags
    does to them. Tags are compared on `nameKey`; `name` is display only. */
module Store {
  import opened Wrappers
  import opened Text
  import opened Tasks

  datatype Tag = Tag(name: string, nameKey: string)

  type Link = (nat, nat)  // task id, tag id

  /** One consistent view of the tables; `next` is the source of fresh ids. */
  datatype Tables = Tables(tasks: map<nat, Task>, tags: map<nat, Tag>, links: set<Link>, outbox: seq<Event>, next: nat)

  datatype Integrity = TitleKeyTaken | TagKeyTaken | DanglingLink

  predicate TitleKeysDistinct(tasks: map<nat, Task>) {
    forall a, b :: a in tasks && b in tasks && tasks[a].titleKey == tasks[b].titleKey ==> a == b
  }

  predicate TagKeysDistinct(tags: map<nat, Tag>) {
    forall a, b :: a in tags && b in tags && tags[a].nameKey == tags[b].nameKey ==> a == b
  }

  predicate LinksHold(t: Tables) {
    forall l :: l in t.links ==> l.0 in t.tasks && l.1 in t.tags
  }

  /** The constraint a flush of this state would violate. */
  function Violation(t: Tables): Option<Integrity> {
    if !TitleKeysDistinct(t.tasks) then Some(TitleKeyTaken)
    else if !TagKeysDistinct(t.tags) then Some(TagKeyTaken)
    else if !LinksHold(t) then Some(DanglingLink)
    else None
  }

  // ----- Reading tags -----

  /** `names_for_tasks` for one task: the display names its links lead to. */
  function NamesFor(t: Tables, taskId: nat): set<string> {
    set l | l in t.links && l.0 == taskId && l.1 in t.tags :: t.tags[l.1].name
  }

  function KeysFor(t: Tables, taskId: nat): set<string> {
    set l | l in t.links && l.0 == taskId && l.1 in t.tags :: t.tags[l.1].nameKey
  }

  /** `task_count`. */
  function TaskCount(t: Tables, tagId: nat): nat {
    |set l | l in t.links && l.1 == tagId|
  }

  predicate HasKey(tags: map<nat, Tag>, key: string) {
    exists id :: id in tags && tags[id].nameKey == key
  }

  function IdOf(tags: map<nat, Tag>, key: string): (id: nat)
    requires HasKey(tags, key) && TagKeysDistinct(tags)
    ensures id in tags && tags[id].nameKey == key
  {
    var id :| id in tags && tags[id].nameKey == key;
    id
  }

  // ----- Resolving names -----

  predicate NoneBlank(names: seq<string>) {
    forall i :: 0 <= i < |names| ==> NonBlank(names[i])
  }

  function RequestedKeys(fold: Fold, names: seq<string>): set<string> {
    set i | 0 <= i < |names| :: NormalKey(fold, names[i])
  }

  function Spellings(names: seq<string>): set<string> {
    set i | 0 <= i < |names| :: Strip(names[i])
  }

  type Wanted = seq<(string, string)>  // key, first spelling

  function KeysOf(wanted: Wanted): set<string> {
    set i | 0 <= i < |wanted| :: wanted[i].0
  }

  /** The `wanted` dictionary: one entry per key, in order, with the first spelling. */
  function WantedOf(fold: Fold, names: seq<string>): Wanted {
    if names == [] then []
    else
      var before, last := WantedOf(fold, names[..|names| - 1]), names[|names| - 1];
      if NormalKey(fold, last) in KeysOf(before) then before else before + [(NormalKey(fold, last), Strip(last))]
  }

  function FoundIds(tags: map<nat, Tag>, keys: set<string>): map<string, nat>
    requires TagKeysDistinct(tags)
  {
    map key | key in keys && HasKey(tags, key) :: IdOf(tags, key)
  }

  /** Tags after minting, the ids resolved so far, and the next fresh id. */
  datatype Vocabulary = Vocabulary(tags: map<nat, Tag>, ids: map<string, nat>, next: nat)

  function Mint(start: Vocabulary, wanted: Wanted): Vocabulary
    decreases |wanted|
  {
    if wanted == [] then start
    else
      var v, last := Mint(start, wanted[..|wanted| - 1]), wanted[|wanted| - 1];
      if last.0 in v.ids then v
      else Vocabulary(v.tags[v.next := Tag(last.1, last.0)], v.ids[last.0 := v.next], v.next + 1)
  }

  /** `resolve`: existing tags keep their ids, each missing key gets one new tag. */
  function Resolved(fold: Fold, tags: map<nat, Tag>, next: nat, names: seq<string>): Vocabulary
    requires TagKeysDistinct(tags)
  {
    var wanted := WantedOf(fold, names);
    Mint(Vocabulary(tags, FoundIds(tags, KeysOf(wanted)), next), wanted)
  }

  function Relinked(links: set<Link>, taskId: nat, ids: set<nat>): set<Link> {
    (set l | l in links && l.0 != taskId) + (set id | id in ids :: (taskId, id))
  }

  /** `_stage_tags`, as a change of tables; nothing when a blank name raises. */
  function StagedTags(fold: Fold, t: Tables, taskId: nat, names: Option<seq<string>>): Option<(Tables, seq<Event>)>
    requires TagKeysDistinct(t.tags)
  {
    if names.None? then Some((t, []))
    else if !NoneBlank(names.value) then None
    else
      var before, after := NamesFor(t, taskId), Spellings(names.value);
      var v := Resolved(fold, t.tags, t.next, names.value);
      var minted := t.(tags := v.tags, next := v.next);
      if before == after then Some((minted, []))
      else Some((minted.(links := Relinked(t.links, taskId, v.ids.Values)),
                 [TaskTagsChanged(taskId, after, after - before, before - after)]))
  }

  // ----- The law of the store -----

  predicate TagOk(fold: Fold, tag: Tag) {
    NonBlank(tag.name) && Strip(tag.name) == tag.name && tag.nameKey == NormalKey(fold, tag.name)
  }

  predicate TagsOk(fold: Fold, tags: map<nat, Tag>, next: nat) {
    && TagKeysDistinct(tags)
    && forall id :: id in tags ==> TagOk(fold, tags[id]) && id < next
  }

  predicate TasksOk(fold: Fold, tasks: map<nat, Task>, next: nat) {
    && TitleKeysDistinct(tasks)
    && forall id :: id in tasks ==> tasks[id].id == id && KeyLaw(fold, tasks[id]) && id < next
  }

  /** What every serial run keeps: keys distinct and equal to the normalised text, no dangling link. */
  predicate StoreOk(fold: Fold, t: Tables) {
    TasksOk(fold, t.tasks, t.next) && TagsOk(fold, t.tags, t.next) && LinksHold(t)
  }

  lemma StoreHasNoViolation(fold: Fold, t: Tables)
    requires StoreOk(fold, t)
    ensures Violation(t).None?
  {
  }
}
