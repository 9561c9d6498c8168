/** Where every candidate outside the conflicts ends up: the diagnostics leave none out and count none twice. */
module PackAccounting {
  import opened Sorting
  import opened PackModel
  import opened PackSettle
  import opened PackSelect
  import opened PackFates
  import opened PackCompose
  import opened PackGuarantees

  /** `gone` left the selection between s and t; besides them, settling removes conflict members only. */
  ghost predicate Left(conflicts: set<Conflict>, s: Selection, t: Selection, gone: set<Key>) {
    && gone <= KeySet(s.kept) && gone !! KeySet(t.kept) && KeySet(t.kept) <= KeySet(s.kept)
    && (forall k :: k in s.kept && k !in t.kept && k !in Members(conflicts) ==> k in gone)
  }

  /** The counters of the main loop stay; the other two grow by the given numbers. */
  predicate Counted(a: Diagnostics, b: Diagnostics, cut: nat, popped: nat) {
    && b.deduplicated == a.deduplicated && b.citedEpisode == a.citedEpisode && b.sectionBudget == a.sectionBudget
    && b.totalItems == a.totalItems + cut && b.packBytes == a.packBytes + popped
  }

  lemma TailLeaves(pool: Pool, conflicts: set<Conflict>, s: Selection, n: nat, t: Selection)
    requires SortedBy(Ranking(pool), s.kept) && WholeOrNothing(conflicts, s) && n <= |s.kept|
    requires t.kept == SettledKept(s.kept[..n], s.live)
    ensures Left(conflicts, s, t, KeySet(s.kept[n..])) && |KeySet(s.kept[n..])| == |s.kept| - n
  {
    RankingStrictTotal(pool);
    DistinctWhenSorted(Ranking(pool), s.kept);
    SplitKeys(s.kept, n);
    SettleFacts(s.kept[..n], s.live);
    NotLive(conflicts, s.live);
    forall k | k in s.kept && k !in t.kept && k !in Members(conflicts) ensures k in s.kept[n..] {
      assert k in KeySet(s.kept);
    }
  }

  lemma NotLive(conflicts: set<Conflict>, live: set<Conflict>)
    requires live <= conflicts
    ensures Members(live) <= Members(conflicts)
  {
  }

  /** The head and the tail of a sequence without repetitions share no key. */
  lemma SplitKeys(r: seq<Key>, n: nat)
    requires n <= |r| && forall i, j :: 0 <= i < j < |r| ==> r[i] != r[j]
    ensures KeySet(r[..n]) !! KeySet(r[n..]) && KeySet(r) == KeySet(r[..n]) + KeySet(r[n..])
    ensures |KeySet(r[n..])| == |r| - n
  {
    DistinctSize(r[n..]);
    assert forall i :: 0 <= i < n ==> r[..n][i] == r[i];
    assert forall i :: n <= i < |r| ==> r[n..][i - n] == r[i];
    assert r == r[..n] + r[n..];
  }

  lemma {:induction false} DistinctSize(r: seq<Key>)
    requires forall i, j :: 0 <= i < j < |r| ==> r[i] != r[j]
    ensures |KeySet(r)| == |r|
  {
    if r != [] {
      var most := r[..|r| - 1];
      DistinctSize(most);
      assert KeySet(r) == KeySet(most) + {r[|r| - 1]};
    }
  }

  lemma CapLeaves(pool: Pool, conflicts: set<Conflict>, params: Params, s: Selection) returns (cut: set<Key>)
    requires WholeOrNothing(conflicts, s)
    ensures Left(conflicts, s, Cap(pool, params, s), cut) && Counted(s.diag, Cap(pool, params, s).diag, |cut|, 0)
  {
    var r := Ranked(pool, KeySet(s.kept));
    SortKeepsWhole(pool, conflicts, s);
    cut := {};
    if |r| > params.maxItems {
      var short := Shortened(s.(kept := r), params.maxItems);
      SettleAllIs(short);
      TailLeaves(pool, conflicts, s.(kept := r), params.maxItems, SettleAll(short));
      cut := KeySet(r[params.maxItems..]);
    }
  }

  lemma PopLeaves(pool: Pool, conflicts: set<Conflict>, s: Selection)
    requires WholeOrNothing(conflicts, s) && SortedBy(Ranking(pool), s.kept) && s.kept != []
    ensures Left(conflicts, s, Pop(s), {s.kept[|s.kept| - 1]}) && Counted(s.diag, Pop(s).diag, 0, 1)
  {
    var n := |s.kept| - 1;
    SettleAllIs(s.(kept := s.kept[..n], diag := s.diag.(packBytes := s.diag.packBytes + 1)));
    TailLeaves(pool, conflicts, s, n, Pop(s));
    assert KeySet(s.kept[n..]) == {s.kept[n]};
  }

  lemma {:induction false} TrimLeaves(x: Inputs, pool: Pool, conflicts: set<Conflict>, s: Selection)
    returns (popped: set<Key>)
    requires WholeOrNothing(conflicts, s) && SortedBy(Ranking(pool), s.kept)
    ensures Left(conflicts, s, Trim(x, s), popped) && Counted(s.diag, Trim(x, s).diag, 0, |popped|)
    decreases |s.kept|
  {
    popped := {};
    if TooLong(x, s) {
      PopFacts(pool, conflicts, s);
      PopLeaves(pool, conflicts, s);
      var rest := TrimLeaves(x, pool, conflicts, Pop(s));
      var last := s.kept[|s.kept| - 1];
      assert last !in rest;
      popped := rest + {last};
    }
  }

  lemma {:induction false} AdmissionCountsSets(pool: Pool, params: Params, s: Selection, order: seq<Conflict>)
    requires forall c :: c in order ==> c.members <= pool.Keys
    ensures Counted(s.diag, AdmitSets(pool, params, s, order).diag, 0, 0)
  {
    if order != [] {
      var before, last := AdmitSets(pool, params, s, order[..|order| - 1]), order[|order| - 1];
      assert last in order;
      AdmissionCountsSets(pool, params, s, order[..|order| - 1]);
      if Fits(params, before, |Missing(before, last)|) {
        AdmitAllCounts(pool, before, Missing(before, last));
      }
    }
  }

  lemma {:induction false} AdmitAllCounts(pool: Pool, s: Selection, ks: seq<Key>)
    requires forall k :: k in ks ==> k in pool
    ensures AdmitAll(pool, s, ks).diag == s.diag
  {
    if ks != [] {
      AdmitAllCounts(pool, s, ks[..|ks| - 1]);
    }
  }

  lemma AdmittedCounts(x: Inputs)
    requires InputsOk(x)
    ensures Counted(NO_DIAGNOSTICS, Admitted(x).diag, 0, 0)
  {
    AdmissionCountsSets(x.candidates, x.params, Nothing(x.conflicts), AdmissionOrder(x));
  }

  /** A raw row is added, or counted as a duplicate. */
  lemma {:induction false} AddRowsCounts(pool: Pool, s: Selection, ks: seq<Key>)
    requires forall k :: k in ks ==> k in pool
    ensures var t := AddRows(pool, s, ks);
            && Counted(s.diag.(deduplicated := t.diag.deduplicated), t.diag, 0, 0)
            && t.diag.deduplicated + |t.kept| == s.diag.deduplicated + |s.kept| + |ks|
  {
    if ks != [] {
      AddRowsCounts(pool, s, ks[..|ks| - 1]);
    }
  }

  // ---------------------------------------------------------------- main results

  /**
   * Each candidate outside the conflicts meets exactly one fate in the main loop, and the counters say how many met
   * which.
   */
  lemma FatesAreCounted(x: Inputs)
    requires InputsOk(x)
    ensures forall k :: k in x.candidates && k !in Members(x.conflicts) ==> exists f :: k in FatedIn(x, f)
    ensures forall k, f, g :: k in FatedIn(x, f) && k in FatedIn(x, g) ==> f == g
    ensures Selected(x).diag.deduplicated == |FatedIn(x, Duplicate)| + |FatedIn(x, SameText)|
    ensures Selected(x).diag.citedEpisode == |FatedIn(x, Cited)|
    ensures Selected(x).diag.sectionBudget == |FatedIn(x, OverBudget)|
  {
    SelectedIsCounted(x);
    forall k | k in x.candidates && k !in Members(x.conflicts) ensures exists f :: k in FatedIn(x, f) {
      HasFate(x, k);
    }
    forall k, f, g | k in FatedIn(x, f) && k in FatedIn(x, g) ensures f == g {
      SameFate(x, k, f, g);
    }
  }

  lemma HasFate(x: Inputs, k: Key)
    requires InputsOk(x) && k in x.candidates && k !in Members(x.conflicts)
    ensures exists f :: k in FatedIn(x, f)
  {
    OthersLoose(x);
    assert k in Others(x);
    OneFate(x.candidates, x.params, x.cites, x.conflicts, Admitted(x), Others(x), k);
    var f :| k in Fated(x.candidates, x.params, x.cites, Admitted(x), Others(x), f);
    assert k in FatedIn(x, f);
  }

  lemma SameFate(x: Inputs, k: Key, f: Fate, g: Fate)
    requires InputsOk(x) && k in FatedIn(x, f) && k in FatedIn(x, g)
    ensures f == g
  {
    OthersLoose(x);
    assert k in Others(x);
    OneFate(x.candidates, x.params, x.cites, x.conflicts, Admitted(x), Others(x), k);
  }

  /** Raw rows that were picked, but not added because their key or text was there already. */
  ghost function RepeatedRows(x: Inputs): int
    requires InputsOk(x)
  {
    var s := Capped(x);
    if NeedsRaw(x, s) && x.rows.Some? then |Picked(x)| - (|AddRows(AllItems(x), s, Picked(x)).kept| - |s.kept|) else 0
  }

  /** The exact final counters. The two caps and the trim drop items that were there, and none of them twice. */
  ghost predicate Accounts(x: Inputs, cut: set<Key>, cutAgain: set<Key>, popped: set<Key>)
    requires InputsOk(x)
  {
    && Composed(x).diag.totalItems == |cut| + |cutAgain| && Composed(x).diag.packBytes == |popped|
    && Composed(x).diag.citedEpisode == |FatedIn(x, Cited)| &&
       Composed(x).diag.sectionBudget == |FatedIn(x, OverBudget)|
    && Composed(x).diag.deduplicated == |FatedIn(x, Duplicate)| + |FatedIn(x, SameText)| + RepeatedRows(x)
    && cut <= KeySet(Selected(x).kept) && cutAgain <= KeySet(Capped(x).kept) + RawAdded(x)
    && popped <= KeySet(Fallback(x, Capped(x)).kept)
    && cut !! cutAgain !! popped !! KeySet(Composed(x).kept)
  }

  /** A candidate kept by the main loop is shown in the end, or was cut once by a cap, or popped once by the trim. */
  lemma NothingIsLost(x: Inputs) returns (cut: set<Key>, cutAgain: set<Key>, popped: set<Key>)
    requires InputsOk(x)
    ensures Accounts(x, cut, cutAgain, popped)
    ensures forall k :: k in FatedIn(x, Kept) ==>
                          (k in Composed(x).kept || k in cut || k in cutAgain || k in popped)
  {
    var a, b, c, d := Selected(x), Capped(x), Fallback(x, Capped(x)), Composed(x);
    SelectedFacts(x);
    CappedSound(x);
    FallbackSound(x);
    cut := CapLeaves(AllItems(x), x.conflicts, x.params, a);
    cutAgain := FallbackLeaves(x);
    popped := TrimLeaves(x, AllItems(x), x.conflicts, c);
    SelectedIsCounted(x);
    RowsAreNotCandidates(x);
    DropsDiffer(KeySet(a.kept), KeySet(b.kept), KeySet(c.kept), KeySet(d.kept), RawAdded(x), cut, cutAgain, popped);
    forall k | k in FatedIn(x, Kept) ensures k in d.kept || k in cut || k in cutAgain || k in popped {
      KeptIsSelected(x, k);
    }
  }

  lemma KeptIsSelected(x: Inputs, k: Key)
    requires InputsOk(x) && k in FatedIn(x, Kept)
    ensures k in Selected(x).kept && k !in Members(x.conflicts)
  {
    OthersLoose(x);
    KeptAreFated(x.candidates, x.params, x.cites, x.conflicts, Admitted(x), Others(x));
  }

  lemma SelectedIsCounted(x: Inputs)
    requires InputsOk(x)
    ensures Selected(x).diag.deduplicated == |FatedIn(x, Duplicate)| + |FatedIn(x, SameText)|
    ensures Selected(x).diag.citedEpisode == |FatedIn(x, Cited)|
    ensures Selected(x).diag.sectionBudget == |FatedIn(x, OverBudget)|
    ensures Selected(x).diag.totalItems == 0 && Selected(x).diag.packBytes == 0
  {
    OthersLoose(x);
    AdmittedCounts(x);
    EachCounted(x.candidates, x.params, x.cites, x.conflicts, Admitted(x), Others(x));
  }

  lemma EachCounted(pool: Pool, params: Params, cites: Citations, conflicts: set<Conflict>, s: Selection,
                    order: seq<Key>)
    requires Loose(pool, conflicts, order) && Counted(NO_DIAGNOSTICS, s.diag, 0, 0)
    ensures var t := TakeAll(pool, params, cites, s, order);
            && t.diag.deduplicated ==
               |Fated(pool, params, cites, s, order, Duplicate)| + |Fated(pool, params, cites, s, order, SameText)|
            && t.diag.citedEpisode == |Fated(pool, params, cites, s, order, Cited)|
            && t.diag.sectionBudget == |Fated(pool, params, cites, s, order, OverBudget)|
            && t.diag.totalItems == 0 && t.diag.packBytes == 0
  {
    FatesCounted(pool, params, cites, conflicts, s, order);
  }

  lemma RowsAreNotCandidates(x: Inputs)
    requires InputsOk(x)
    ensures KeySet(Selected(x).kept) !! RawAdded(x)
  {
    SelectedFacts(x);
    forall k | k in RawAdded(x) ensures k !in x.candidates {
      ItemsBySource(x, k);
    }
  }

  /** What goes at one stage is not there at a later one, so nothing goes twice. */
  lemma DropsDiffer(a: set<Key>, b: set<Key>, c: set<Key>, d: set<Key>, rows: set<Key>, cut: set<Key>,
                    cutAgain: set<Key>, popped: set<Key>)
    requires a !! rows && b <= a && c <= b + rows && d <= c
    requires cut <= a && cut !! b && cutAgain <= b + rows && cutAgain !! c && popped <= c && popped !! d
    ensures cut !! cutAgain !! popped !! d
  {
  }

  lemma FallbackLeaves(x: Inputs) returns (cut: set<Key>)
    requires InputsOk(x) && Sound(x, Capped(x))
    ensures var b, c := Capped(x), Fallback(x, Capped(x));
            && Counted(b.diag.(deduplicated := c.diag.deduplicated), c.diag, |cut|, 0)
            && c.diag.deduplicated == b.diag.deduplicated + RepeatedRows(x)
            && cut <= KeySet(b.kept) + RawAdded(x) && cut !! KeySet(c.kept)
            && forall k :: k in b.kept && k !in c.kept && k !in Members(x.conflicts) ==> k in cut
  {
    var b := Capped(x);
    cut := {};
    if NeedsRaw(x, b) && x.rows.Some? {
      var added := AddRows(AllItems(x), b, Picked(x));
      AddRowsFacts(x, b, Picked(x));
      AddRowsCounts(AllItems(x), b, Picked(x));
      cut := CapLeaves(AllItems(x), x.conflicts, x.params, added);
      forall k | k in b.kept && k !in Fallback(x, b).kept && k !in Members(x.conflicts) ensures k in cut {
        assert k in KeySet(b.kept) && k in added.kept;
      }
    }
  }

  // ---------------------------------------------------------------- nothing is left out without need

  /** A candidate is over budget only when its section is exactly full. */
  lemma OverBudgetMeansFull(x: Inputs, k: Key)
    requires InputsOk(x) && k in x.candidates && k in FatedIn(x, OverBudget)
    ensures |SectionKeys(x.candidates, Selected(x).kept, x.candidates[k].section)| ==
              x.params.budget(x.candidates[k].section)
  {
    OthersLoose(x);
    SelectedFacts(x);
    OverBudgetStaysFull(x.candidates, x.params, x.cites, x.conflicts, Admitted(x), Others(x), k);
    assert SectionOk(x.candidates, x.params, Selected(x), x.candidates[k].section);
  }

  lemma OverBudgetStaysFull(pool: Pool, params: Params, cites: Citations, conflicts: set<Conflict>, s: Selection,
                            order: seq<Key>, k: Key)
    requires Loose(pool, conflicts, order) && k in Fated(pool, params, cites, s, order, OverBudget)
    ensures Full(params, TakeAll(pool, params, cites, s, order), pool[k].section)
  {
    var i := TurnOf(pool, params, cites, s, order, k, OverBudget);
    NothingMore(pool, params, cites, conflicts, s, order, i, pool[k].section);
  }

  /** The members of the set that are not shown yet do not fit into the section any more. */
  predicate Overflows(params: Params, s: Selection, c: Conflict) {
    CountOf(s, CONFLICTS_AND_STALE) + |c.members - s.keys| > params.budget(CONFLICTS_AND_STALE)
  }

  lemma MissingSize(s: Selection, c: Conflict)
    ensures |Missing(s, c)| == |c.members - s.keys|
  {
    MissingFacts(s, c);
    DistinctSize(Missing(s, c));
    assert KeySet(Missing(s, c)) == c.members - s.keys;
  }

  lemma AdmitSetLive(pool: Pool, params: Params, s: Selection, c: Conflict)
    requires c.members <= pool.Keys
    ensures AdmitSet(pool, params, s, c).live == if Overflows(params, s, c) then s.live - {c} else s.live
  {
    MissingSize(s, c);
    if Fits(params, s, |Missing(s, c)|) {
      AdmitAllLive(pool, s, Missing(s, c));
    }
  }

  /** A conflict set is refused only when, at its turn, its missing members would overflow the section. */
  lemma {:induction false} RefusedSetDidNotFit(pool: Pool, params: Params, s: Selection, order: seq<Conflict>,
                                               c: Conflict)
    returns (i: nat)
    requires (forall d :: d in order ==> d.members <= pool.Keys) && c in s.live
    requires c !in AdmitSets(pool, params, s, order).live
    ensures i < |order| && order[i] == c && (forall d :: d in order[..i] ==> d.members <= pool.Keys)
    ensures Overflows(params, AdmitSets(pool, params, s, order[..i]), c)
  {
    var most := order[..|order| - 1];
    PrefixElements(order);
    if c in AdmitSets(pool, params, s, most).live {
      i := |most|;
      RefusedAtLast(pool, params, s, order, c);
    } else {
      i := RefusedSetDidNotFit(pool, params, s, most, c);
      PrefixOfPrefix(order, i);
    }
  }

  lemma RefusedAtLast(pool: Pool, params: Params, s: Selection, order: seq<Conflict>, c: Conflict)
    requires order != [] && forall d :: d in order ==> d.members <= pool.Keys
    requires c in AdmitSets(pool, params, s, order[..|order| - 1]).live && c !in AdmitSets(pool, params, s, order).live
    ensures c == order[|order| - 1] && Overflows(params, AdmitSets(pool, params, s, order[..|order| - 1]), c)
  {
    assert order[|order| - 1] in order;
    AdmitSetLive(pool, params, AdmitSets(pool, params, s, order[..|order| - 1]), order[|order| - 1]);
  }

  lemma {:induction false} AdmitAllLive(pool: Pool, s: Selection, ks: seq<Key>)
    requires forall k :: k in ks ==> k in pool
    ensures AdmitAll(pool, s, ks).live == s.live
  {
    if ks != [] {
      AdmitAllLive(pool, s, ks[..|ks| - 1]);
    }
  }
}
