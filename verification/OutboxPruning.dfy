/** Repeated prunes. A pass is bounded, so it may leave a backlog to the next one; however the
    passes choose their rows, enough of them drain it. */
module OutboxPruning {
  import opened Sets
  import opened Outbox
  import opened OutboxProgress

  lemma PrunedLeaves(before: map<nat, Row>, after: map<nat, Row>, cutoff: int, cap: nat)
    requires Pruned(before, after, cutoff, cap)
    ensures PrunableIds(after, cutoff) <= PrunableIds(before, cutoff)
    ensures |PrunableIds(after, cutoff)| == |PrunableIds(before, cutoff)| - Min(|PrunableIds(before, cutoff)|, cap)
    ensures forall id :: id in before && id !in PrunableIds(before, cutoff) ==> id in after && after[id] == before[id]
    ensures forall id :: id in before ==>
      before[id].publishedAt.None? || before[id].deadLetteredAt.Some? || before[id].publishedAt.value > cutoff ==>
        id in after && after[id] == before[id]
  {
    hide PrunableIds;
    var all := PrunableIds(before, cutoff);
    var gone :| gone <= all && |gone| == Min(|all|, cap) && after == before - gone;
    EligibleMeans(before, cutoff);
    PruneLeft(before, cutoff, gone);
    SubsetSize(gone, all);
  }

  /** Each pass prunes the table the one before it left, at its own cutoff. */
  ghost predicate Passes(tables: seq<map<nat, Row>>, cutoffs: seq<int>, cap: nat) {
    && |tables| == |cutoffs| + 1
    && forall i :: 0 <= i < |cutoffs| ==> Pruned(tables[i], tables[i + 1], cutoffs[i], cap)
  }

  predicate Advancing(cutoffs: seq<int>) {
    forall i, j :: 0 <= i <= j < |cutoffs| ==> cutoffs[i] <= cutoffs[j]
  }

  lemma LaterCutoff(rows: map<nat, Row>, early: int, late: int)
    requires early <= late
    ensures PrunableIds(rows, early) <= PrunableIds(rows, late)
  {
  }

  /** A pass at a cutoff between two others: at the later one it deletes `cap` rows, or it leaves
      nothing at the earlier one. */
  lemma PassBetween(before: map<nat, Row>, after: map<nat, Row>, early: int, cutoff: int, late: int, cap: nat)
    requires Pruned(before, after, cutoff, cap) && early <= cutoff <= late
    ensures PrunableIds(after, early) <= PrunableIds(before, early)
    ensures PrunableIds(after, early) == {} || |PrunableIds(after, late)| + cap <= |PrunableIds(before, late)|
  {
    hide PrunableIds;
    var all := PrunableIds(before, cutoff);
    var gone :| gone <= all && |gone| == Min(|all|, cap) && after == before - gone;
    PruneLeft(before, early, gone);
    PruneLeft(before, late, gone);
    LaterCutoff(before, early, cutoff);
    LaterCutoff(before, cutoff, late);
    EarlyOrCap(PrunableIds(before, early), all, PrunableIds(before, late), gone, cap);
  }

  lemma EarlyOrCap(early: set<nat>, all: set<nat>, late: set<nat>, gone: set<nat>, cap: nat)
    requires early <= all <= late && gone <= all && |gone| == Min(|all|, cap)
    ensures early - gone == {} || |late - gone| + cap <= |late|
  {
    SubsetSize(gone, all);
    SubsetSize(gone, late);
  }

  lemma {:induction false} PassesSpend(tables: seq<map<nat, Row>>, cutoffs: seq<int>, cap: nat, early: int, late: int)
    requires Passes(tables, cutoffs, cap) && forall i :: 0 <= i < |cutoffs| ==> early <= cutoffs[i] <= late
    ensures PrunableIds(tables[|cutoffs|], early) <= PrunableIds(tables[0], early)
    ensures PrunableIds(tables[|cutoffs|], early) == {} ||
      |PrunableIds(tables[|cutoffs|], late)| + |cutoffs| * cap <= |PrunableIds(tables[0], late)|
    decreases |cutoffs|
  {
    hide PrunableIds, Pruned;
    if cutoffs != [] {
      var n := |cutoffs| - 1;
      PassesSpend(tables[..n + 1], cutoffs[..n], cap, early, late);
      PassBetween(tables[n], tables[n + 1], early, cutoffs[n], late, cap);
      OneMore(n, cap);
    }
  }

  /** Repeated passes drain any backlog. With advancing cutoffs, as many passes as would cover all
      that is eligible at the last of them leave nothing that was eligible at the first; with one
      cutoff, nothing eligible at all. */
  lemma PassesDrain(tables: seq<map<nat, Row>>, cutoffs: seq<int>, cap: nat)
    requires cutoffs != [] && Passes(tables, cutoffs, cap) && Advancing(cutoffs)
    requires |cutoffs| * cap >= |PrunableIds(tables[0], cutoffs[|cutoffs| - 1])|
    ensures PrunableIds(tables[|cutoffs|], cutoffs[0]) == {}
    ensures
      var last := tables[|cutoffs|];
      forall id :: id in last && last[id].publishedAt.Some? && last[id].deadLetteredAt.None? ==> last[id].publishedAt.value > cutoffs[0]
  {
    hide PrunableIds, Pruned;
    var n := |cutoffs|;
    var early, late := cutoffs[0], cutoffs[n - 1];
    PassesSpend(tables, cutoffs, cap, early, late);
    LaterCutoff(tables[n], early, late);
    EligibleMeans(tables[n], early);
    var last := tables[n];
    forall id | id in last && last[id].publishedAt.Some? && last[id].deadLetteredAt.None? ensures last[id].publishedAt.value > early {
      assert id !in PrunableIds(last, early);
    }
  }
}
