/** The title-key law under concurrency. Serial writes keep `title_key == normalize(title)`; two
    concurrent renames need not, because an UPDATE writes only the columns that moved. */
module KeyDrift {
  import opened Wrappers
  import opened Text
  import opened Tasks
  import opened GuardProtocol

  function Rename(id: nat, title: string): Op {
    PatchTask(id, Patch(Some(title), None, None, None), {})
  }

  function Prepare(t: TxId, id: nat, title: string): seq<Step> {
    [Begin(t, Rename(id, title)), ReadTask(t), Decide(t, 0)]
  }

  /** The row a rename is about to commit. */
  function Renamed(fold: Fold, row: Task, title: string): Task {
    row.(title := Strip(title), titleKey := NormalKey(fold, title))
  }

  function Prepared(fold: Fold, row: Task, title: string): Tx {
    var updated := Renamed(fold, row, title);
    Ready(Update(row, updated), UpdateEvents(updated, row, None), {})
  }

  lemma {:induction false} RunConcat(fold: Fold, s: Db, first: seq<Step>, middle: Db, second: seq<Step>)
    requires Run(fold, s, first) == Some(middle)
    ensures Run(fold, s, first + second) == Run(fold, middle, second)
    decreases |first|
  {
    hide Do;
    if first == [] {
      assert first + second == second;
    } else {
      assert (first + second)[1..] == first[1..] + second;
      RunConcat(fold, Do(fold, s, first[0]).value, first[1..], middle, second);
    }
  }

  lemma RunThree(fold: Fold, s: Db, a: Step, b: Step, c: Step, s1: Db, s2: Db, s3: Db)
    requires Do(fold, s, a) == Some(s1) && Do(fold, s1, b) == Some(s2) && Do(fold, s2, c) == Some(s3)
    ensures Run(fold, s, [a, b, c]) == Some(s3)
  {
    hide Do;
    assert [a, b, c][1..] == [b, c] && [b, c][1..] == [c] && [c][1..] == [];
    assert Run(fold, s2, [c]) == Run(fold, s3, []);
    assert Run(fold, s1, [b, c]) == Run(fold, s2, [c]);
  }

  lemma RenameDecides(fold: Fold, s: Db, row: Task, id: nat, title: string)
    requires NormalKey(fold, title) != "" && Strip(title) != row.title
    ensures DecideEdit(fold, s, Rename(id, title), None, row) == Some(Renamed(fold, row, title))
    ensures UpdateEvents(Renamed(fold, row, title), row, None) != [] && Renamed(fold, row, title).status == row.status
  {
    assert Title in ChangedFields(Renamed(fold, row, title), row);
  }

  /** An unguarded rename runs up to its commit without taking the guard. */
  lemma RenamePrepares(fold: Fold, s: Db, t: TxId, id: nat, title: string)
    requires t !in s.txs && id in s.tasks
    requires NormalKey(fold, title) != "" && Strip(title) != s.tasks[id].title
    ensures Run(fold, s, Prepare(t, id, title)) == Some(s.(txs := s.txs[t := Prepared(fold, s.tasks[id], title)]))
  {
    hide DecideEdit, UpdateEvents, Renamed;
    var row, op := s.tasks[id], Rename(id, title);
    var s1 := s.(txs := s.txs[t := Started(op)]);
    var s2 := s.(txs := s.txs[t := WithTask(op, None, row)]);
    var s3 := s.(txs := s.txs[t := Prepared(fold, row, title)]);
    assert s1.txs[t := WithTask(op, None, row)] == s2.txs;
    assert s2.txs[t := Prepared(fold, row, title)] == s3.txs;
    RenameDecides(fold, s2, row, id, title);
    RunThree(fold, s, Begin(t, op), ReadTask(t), Decide(t, 0), s1, s2, s3);
  }

  /** Committing a prepared rename over whatever the row has become. */
  lemma CommitRename(fold: Fold, s: Db, id: nat, row: Task, t: TxId, title: string)
    requires id in s.tasks && s.tasks[id].id == id && row.id == id && t in s.txs && s.txs[t] == Prepared(fold, row, title)
    requires KeyFree(s.tasks, id, Merge(s.tasks[id], row, Renamed(fold, row, title)).titleKey)
    ensures
      var end := Do(fold, s, Commit(t));
      end.Some? && end.value.txs == s.txs - {t} && end.value.tasks == s.tasks[id := Merge(s.tasks[id], row, Renamed(fold, row, title))]
  {
    hide Highest, Entries, Merge, KeyFree, UpdateEvents, Renamed;
    assert row.id == Renamed(fold, row, title).id by { RenamedId(fold, row, title); }
  }

  lemma RenamedId(fold: Fold, row: Task, title: string)
    ensures Renamed(fold, row, title).id == row.id
  {
  }

  /** Both renames have read the row; the key-changing one commits, then the case-only one. */
  lemma CommitBoth(fold: Fold, s: Db, id: nat, row: Task, t: TxId, u: TxId, caseOnly: string, other: string)
    requires t != u && id in s.tasks && s.tasks[id] == row && row.id == id
    requires t in s.txs && s.txs[t] == Prepared(fold, row, caseOnly)
    requires u in s.txs && s.txs[u] == Prepared(fold, row, other)
    requires NormalKey(fold, caseOnly) == row.titleKey && Strip(caseOnly) != row.title
    requires NormalKey(fold, other) != row.titleKey && Strip(other) != row.title && KeyFree(s.tasks, id, NormalKey(fold, other))
    ensures
      var end := Run(fold, s, [Commit(u), Commit(t)]);
      && end.Some? && id in end.value.tasks
      && end.value.tasks[id].title == Strip(caseOnly) && end.value.tasks[id].titleKey == NormalKey(fold, other)
  {
    hide Do, UpdateEvents;
    CommitRename(fold, s, id, row, u, other);
    var middle := Do(fold, s, Commit(u)).value;
    CommitRename(fold, middle, id, row, t, caseOnly);
    var end := Do(fold, middle, Commit(t)).value;
    assert [Commit(u), Commit(t)][1..] == [Commit(t)] && [Commit(t)][1..] == [];
    assert Run(fold, end, []) == Some(end);
    assert Run(fold, middle, [Commit(t)]) == Some(end);
  }

  /** For every stored task: a case-only rename racing a real one leaves the new spelling beside
      the other one's key, so the key law fails in a state every writer believes consistent. */
  lemma RenamesSplitTitleFromKey(fold: Fold, s: Db, id: nat, t: TxId, u: TxId, caseOnly: string, other: string)
    requires t !in s.txs && u !in s.txs && t != u
    requires id in s.tasks && s.tasks[id].id == id && KeyLaw(fold, s.tasks[id])
    requires NormalKey(fold, caseOnly) == s.tasks[id].titleKey && Strip(caseOnly) != s.tasks[id].title
    requires NormalKey(fold, other) !in {s.tasks[id].titleKey, ""} && Strip(other) != s.tasks[id].title
    requires KeyFree(s.tasks, id, NormalKey(fold, other))
    ensures
      var end := Run(fold, s, Prepare(t, id, caseOnly) + Prepare(u, id, other) + [Commit(u), Commit(t)]);
      && end.Some? && id in end.value.tasks
      && end.value.tasks[id].title == Strip(caseOnly)
      && end.value.tasks[id].titleKey == NormalKey(fold, other)
      && !KeyLaw(fold, end.value.tasks[id])
  {
    hide Do, Run, Prepare;
    var row := s.tasks[id];
    StripLaws(caseOnly);
    RenamePrepares(fold, s, t, id, caseOnly);
    var one := s.(txs := s.txs[t := Prepared(fold, row, caseOnly)]);
    RenamePrepares(fold, one, u, id, other);
    var two := one.(txs := one.txs[u := Prepared(fold, row, other)]);
    RunConcat(fold, s, Prepare(t, id, caseOnly), one, Prepare(u, id, other));
    RunConcat(fold, s, Prepare(t, id, caseOnly) + Prepare(u, id, other), two, [Commit(u), Commit(t)]);
    CommitBoth(fold, two, id, row, t, u, caseOnly, other);
  }
}
