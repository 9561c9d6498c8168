/** Nothing is shown twice in other words: one item per group, and no episode beside what was derived from it. */
module PackNovelty {
  import opened Sorting
  import opened PackModel
  import opened PackSettle
  import opened PackSelect
  import opened PackFates
  import opened PackCompose
  import opened PackGuarantees

  // ---------------------------------------------------------------- groups

  /** The groups of all kept items have been noted. */
  ghost predicate GroupsNoted(pool: Pool, s: Selection) {
    forall k :: k in s.kept && k in pool ==> GroupOf(pool[k]) <= s.groups
  }

  /** A kept item outside the conflicts shares its group with no other kept item. */
  ghost predicate GroupsDiffer(pool: Pool, conflicts: set<Conflict>, kept: seq<Key>) {
    forall j, k :: j in kept && k in kept && j in pool && k in pool && j != k && k !in Members(conflicts) ==>
                     GroupOf(pool[j]) !! GroupOf(pool[k])
  }

  lemma {:induction false} AdmitAllNotes(pool: Pool, s: Selection, ks: seq<Key>)
    requires (forall k :: k in ks ==> k in pool) && GroupsNoted(pool, s)
    ensures GroupsNoted(pool, AdmitAll(pool, s, ks))
  {
    if ks != [] {
      assert ks[|ks| - 1] in ks;
      AdmitAllNotes(pool, s, ks[..|ks| - 1]);
    }
  }

  lemma {:induction false} AdmitSetsNote(pool: Pool, params: Params, s: Selection, order: seq<Conflict>)
    requires (forall c :: c in order ==> c.members <= pool.Keys) && GroupsNoted(pool, s)
    ensures GroupsNoted(pool, AdmitSets(pool, params, s, order))
  {
    if order != [] {
      var before, last := AdmitSets(pool, params, s, order[..|order| - 1]), order[|order| - 1];
      assert last in order;
      AdmitSetsNote(pool, params, s, order[..|order| - 1]);
      if Fits(params, before, |Missing(before, last)|) {
        AdmitAllNotes(pool, before, Missing(before, last));
      }
    }
  }

  lemma AdmittedNotes(x: Inputs)
    requires InputsOk(x)
    ensures GroupsNoted(x.candidates, Admitted(x)) && GroupsDiffer(x.candidates, x.conflicts, Admitted(x).kept)
  {
    AdmittedFacts(x);
    AdmitSetsNote(x.candidates, x.params, Nothing(x.conflicts), AdmissionOrder(x));
  }

  lemma TakeKeepsGroups(pool: Pool, params: Params, cites: Citations, conflicts: set<Conflict>, s: Selection, k: Key)
    requires k in pool && GroupsNoted(pool, s) && GroupsDiffer(pool, conflicts, s.kept)
    requires forall j :: j in s.kept ==> j in pool
    requires k !in Members(conflicts)
    ensures GroupsNoted(pool, Take(pool, params, cites, s, k))
    ensures GroupsDiffer(pool, conflicts, Take(pool, params, cites, s, k).kept)
  {
    var t := Take(pool, params, cites, s, k);
    if FateOf(pool, params, cites, s, k) == Kept {
      assert t.kept == s.kept + [k] && GroupOf(pool[k]) !! s.groups;
      forall a, b | a in t.kept && b in t.kept && a in pool && b in pool && a != b && b !in Members(conflicts)
        ensures GroupOf(pool[a]) !! GroupOf(pool[b])
      {
        assert (a in s.kept || a == k) && (b in s.kept || b == k);
      }
    }
  }

  lemma {:induction false} TakeAllKeepsGroups(pool: Pool, params: Params, cites: Citations, conflicts: set<Conflict>,
                                              s: Selection, order: seq<Key>)
    requires Loose(pool, conflicts, order) && TakeOk(pool, params, conflicts, s)
    requires GroupsNoted(pool, s) && GroupsDiffer(pool, conflicts, s.kept)
    ensures GroupsNoted(pool, TakeAll(pool, params, cites, s, order))
    ensures GroupsDiffer(pool, conflicts, TakeAll(pool, params, cites, s, order).kept)
  {
    if order != [] {
      var most := order[..|order| - 1];
      LoosePrefix(pool, conflicts, order);
      TakeAllKeepsGroups(pool, params, cites, conflicts, s, most);
      TakeAllKeeps(pool, params, cites, conflicts, s, most);
      TakeKeepsGroups(pool, params, cites, conflicts, TakeAll(pool, params, cites, s, most), order[|order| - 1]);
    }
  }

  /**
   * Of a group, such as the episodes of one task, an experience pack shows one item, unless several are sides of
   * conflicts.
   */
  lemma GroupsShownOnce(x: Inputs, j: Key, k: Key)
    requires InputsOk(x) && j in Composed(x).kept && k in Composed(x).kept && j != k && j in x.candidates
    requires k in x.candidates
    requires k !in Members(x.conflicts)
    ensures GroupOf(x.candidates[j]) !! GroupOf(x.candidates[k])
  {
    ShownCandidateSelected(x, j);
    ShownCandidateSelected(x, k);
    SelectedGroupsDiffer(x);
  }

  lemma SelectedGroupsDiffer(x: Inputs)
    requires InputsOk(x)
    ensures GroupsDiffer(x.candidates, x.conflicts, Selected(x).kept)
  {
    AdmittedNotes(x);
    AdmittedTakeOk(x);
    OthersLoose(x);
    TakeAllKeepsGroups(x.candidates, x.params, x.cites, x.conflicts, Admitted(x), Others(x));
  }

  lemma ShownCandidateSelected(x: Inputs, k: Key)
    requires InputsOk(x) && k in Composed(x).kept && k in x.candidates
    ensures k in Selected(x).kept
    ensures k !in Members(x.conflicts) ==> k in FatedIn(x, Kept)
  {
    KeptInPool(x);
    SelectedFacts(x);
    ItemsBySource(x, k);
    assert k in KeySet(Composed(x).kept);
  }

  // ---------------------------------------------------------------- cited episodes

  /** A fate met within a prefix is the fate met in the whole order. */
  lemma {:induction false} FatedPrefix(pool: Pool, params: Params, cites: Citations, conflicts: set<Conflict>,
                                       s: Selection, order: seq<Key>, i: nat, k: Key, fate: Fate)
    requires Loose(pool, conflicts, order) && i <= |order| && k in order[..i]
    requires k in Fated(pool, params, cites, s, order, fate) && (forall x :: x in order[..i] ==> x in pool)
    ensures k in Fated(pool, params, cites, s, order[..i], fate)
  {
    if i == |order| {
      assert order[..i] == order;
    } else {
      var most := order[..|order| - 1];
      LoosePrefix(pool, conflicts, order);
      assert most[..i] == order[..i];
      assert k in most by {
        var a :| 0 <= a < i && order[..i][a] == k;
        assert most[a] == k;
      }
      FatedPrefix(pool, params, cites, conflicts, s, most, i, k, fate);
    }
  }

  /** At the turn of a kept episode nothing kept so far cites it. */
  lemma CiterRanksBelow(pool: Pool, params: Params, cites: Citations, conflicts: set<Conflict>, s: Selection,
                        order: seq<Key>, k: Key, citer: Key)
    requires Loose(pool, conflicts, order) && SortedBy(Ranking(pool), order) && TakeOk(pool, params, conflicts, s)
    requires k in Fated(pool, params, cites, s, order, Kept) && pool[k].episode && !pool[k].failure
    requires citer in CitedBy(cites, pool[k]) && citer != k
    ensures citer !in s.kept
    ensures citer in Fated(pool, params, cites, s, order, Kept) ==> Ranking(pool)(k, citer)
  {
    var i := TurnOf(pool, params, cites, s, order, k, Kept);
    NotKeptBefore(pool, params, cites, conflicts, s, order[..i], citer);
    if citer in Fated(pool, params, cites, s, order, Kept) {
      if citer in order[..i] {
        FatedPrefix(pool, params, cites, conflicts, s, order, i, citer, Kept);
      }
      LaterIsBelow(Ranking(pool), order, i, citer);
    }
  }

  lemma LaterIsBelow(less: (Key, Key) -> bool, order: seq<Key>, i: nat, later: Key)
    requires SortedBy(less, order) && i < |order| && later in order && later !in order[..i] && later != order[i]
    ensures less(order[i], later)
  {
    assert forall b :: 0 <= b < i ==> order[b] in order[..i];
    var a :| 0 <= a < |order| && order[a] == later;
  }

  /** What has not been seen has not been kept. */
  lemma NotKeptBefore(pool: Pool, params: Params, cites: Citations, conflicts: set<Conflict>, s: Selection,
                      order: seq<Key>, k: Key)
    requires Loose(pool, conflicts, order) && TakeOk(pool, params, conflicts, s)
    requires k !in TakeAll(pool, params, cites, s, order).keys
    ensures k !in s.kept && k !in Fated(pool, params, cites, s, order, Kept)
  {
    TakeAllKeeps(pool, params, cites, conflicts, s, order);
    KeptAreFated(pool, params, cites, conflicts, s, order);
    assert k !in TakeAll(pool, params, cites, s, order).kept;
  }

  /** A successful episode is not shown below, or beside a conflict with, anything shown that was derived from it. */
  lemma EpisodeShownWithoutItsLesson(x: Inputs, k: Key, citer: Key)
    requires InputsOk(x) && k in Composed(x).kept && k in x.candidates && k !in Members(x.conflicts)
    requires x.candidates[k].episode && !x.candidates[k].failure
    requires citer in Composed(x).kept && citer in x.candidates && citer != k
    requires citer in CitedBy(x.cites, x.candidates[k])
    ensures citer !in Members(x.conflicts) && Ranking(AllItems(x))(k, citer)
  {
    AdmittedFacts(x);
    OthersLoose(x);
    SameRanking(x);
    ShownCandidateSelected(x, k);
    ShownCandidateSelected(x, citer);
    KeptAreFated(x.candidates, x.params, x.cites, x.conflicts, Admitted(x), Others(x));
    AdmittedTakeOk(x);
    CiterRanksBelow(x.candidates, x.params, x.cites, x.conflicts, Admitted(x), Others(x), k, citer);
    RankingAgrees(x, k, citer);
  }
}
