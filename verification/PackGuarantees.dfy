/** What every composed pack guarantees, whatever the candidates, conflicts, budgets, raw rows and sizes. */
module PackGuarantees {
  import opened Sorting
  import opened PackModel
  import opened PackSettle
  import opened PackSelect
  import opened PackFates
  import opened PackCompose
  import opened Wrappers

  // ---------------------------------------------------------------- live conflicts stay whole

  /** Every set still live is shown whole, and every conflict member that is shown belongs to such a set. */
  ghost predicate WholeOrNothing(conflicts: set<Conflict>, s: Selection) {
    && s.live <= conflicts
    && (forall c :: c in s.live ==> c.members <= KeySet(s.kept))
    && (forall k :: k in s.kept && k in Members(conflicts) ==> k in Members(s.live))
  }

  /** From `before` to `after` items only go; of those outside the conflicts, the ones that rank below all that stay. */
  ghost predicate OnlyDrops(pool: Pool, conflicts: set<Conflict>, before: set<Key>, after: set<Key>) {
    && after <= before
    && forall j, k :: j in after && k in before && k !in after && k !in Members(conflicts) ==> Ranking(pool)(j, k)
  }

  lemma DropsCompose(pool: Pool, conflicts: set<Conflict>, a: set<Key>, b: set<Key>, c: set<Key>)
    requires OnlyDrops(pool, conflicts, a, b) && OnlyDrops(pool, conflicts, b, c)
    ensures OnlyDrops(pool, conflicts, a, c)
  {
  }

  /** Cutting the tail of a ranked selection and settling what is left. */
  lemma CutAndSettle(pool: Pool, conflicts: set<Conflict>, s: Selection, n: nat, t: Selection)
    requires SortedBy(Ranking(pool), s.kept) && WholeOrNothing(conflicts, s) && n <= |s.kept|
    requires t.kept == SettledKept(s.kept[..n], s.live) && t.live == SettledLive(s.kept[..n], s.live)
    ensures WholeOrNothing(conflicts, t) && SortedBy(Ranking(pool), t.kept) && |t.kept| <= n
    ensures OnlyDrops(pool, conflicts, KeySet(s.kept), KeySet(t.kept))
  {
    var cut := s.kept[..n];
    SettleFacts(cut, s.live);
    KeepSorted(Ranking(pool), cut, Greatest(s.live, KeySet(cut)));
    forall k | k in t.kept && k in Members(conflicts) ensures k in Members(t.live) {
      assert k in cut && k in s.kept;
    }
    forall j, k | j in t.kept && k in s.kept && k !in t.kept && k !in Members(conflicts) ensures Ranking(pool)(j, k) {
      assert k !in Members(s.live) by {
        assert forall c :: c in s.live ==> c in conflicts;
      }
      assert k !in cut;
      var a :| 0 <= a < n && s.kept[a] == j;
      var b :| 0 <= b < |s.kept| && s.kept[b] == k;
      assert forall i :: 0 <= i < n ==> s.kept[i] == cut[i];
    }
  }

  lemma {:induction false} KeepSorted(less: (Key, Key) -> bool, s: seq<Key>, keys: set<Key>)
    requires SortedBy(less, s)
    ensures SortedBy(less, Keep(s, keys))
  {
    if s != [] {
      var most := s[..|s| - 1];
      KeepSorted(less, most, keys);
      forall a | 0 <= a < |Keep(most, keys)| ensures less(Keep(most, keys)[a], s[|s| - 1]) {
        var k := Keep(most, keys)[a];
        assert k in Keep(most, keys);
        var i :| 0 <= i < |most| && most[i] == k;
        assert s[i] == k;
      }
    }
  }

  lemma SettleAllIs(s: Selection)
    ensures SettleAll(s).kept == SettledKept(s.kept, s.live) && SettleAll(s).live == SettledLive(s.kept, s.live)
    ensures SettleAll(s).digests == s.digests && SettleAll(s).keys == s.keys
  {
  }

  /** Sorting changes neither the items nor what is whole. */
  lemma SortKeepsWhole(pool: Pool, conflicts: set<Conflict>, s: Selection)
    requires WholeOrNothing(conflicts, s)
    ensures WholeOrNothing(conflicts, s.(kept := Ranked(pool, KeySet(s.kept))))
    ensures KeySet(Ranked(pool, KeySet(s.kept))) == KeySet(s.kept)
  {
  }

  lemma CapFacts(pool: Pool, conflicts: set<Conflict>, params: Params, s: Selection)
    requires WholeOrNothing(conflicts, s)
    ensures var t := Cap(pool, params, s);
            && WholeOrNothing(conflicts, t) && SortedBy(Ranking(pool), t.kept) && |t.kept| <= params.maxItems
            && OnlyDrops(pool, conflicts, KeySet(s.kept), KeySet(t.kept))
            && t.digests == s.digests && t.keys == s.keys
  {
    var r := Ranked(pool, KeySet(s.kept));
    SortKeepsWhole(pool, conflicts, s);
    if |r| > params.maxItems {
      var cut := Shortened(s.(kept := r), params.maxItems);
      SettleAllIs(cut);
      CutAndSettle(pool, conflicts, s.(kept := r), params.maxItems, SettleAll(cut));
    }
  }

  lemma PopFacts(pool: Pool, conflicts: set<Conflict>, s: Selection)
    requires WholeOrNothing(conflicts, s) && SortedBy(Ranking(pool), s.kept) && s.kept != []
    ensures WholeOrNothing(conflicts, Pop(s)) && SortedBy(Ranking(pool), Pop(s).kept) && |Pop(s).kept| < |s.kept|
    ensures OnlyDrops(pool, conflicts, KeySet(s.kept), KeySet(Pop(s).kept)) && Pop(s).digests == s.digests
  {
    var n := |s.kept| - 1;
    SettleAllIs(s.(kept := s.kept[..n], diag := s.diag.(packBytes := s.diag.packBytes + 1)));
    CutAndSettle(pool, conflicts, s, n, Pop(s));
  }

  lemma {:induction false} TrimFacts(x: Inputs, pool: Pool, conflicts: set<Conflict>, s: Selection)
    requires WholeOrNothing(conflicts, s) && SortedBy(Ranking(pool), s.kept)
    ensures WholeOrNothing(conflicts, Trim(x, s)) && SortedBy(Ranking(pool), Trim(x, s).kept)
    ensures |Trim(x, s).kept| <= |s.kept|
    ensures OnlyDrops(pool, conflicts, KeySet(s.kept), KeySet(Trim(x, s).kept)) && Trim(x, s).digests == s.digests
    decreases |s.kept|
  {
    if TooLong(x, s) {
      PopFacts(pool, conflicts, s);
      TrimFacts(x, pool, conflicts, Pop(s));
      DropsCompose(pool, conflicts, KeySet(s.kept), KeySet(Pop(s).kept), KeySet(Trim(x, Pop(s)).kept));
    }
  }

  // ---------------------------------------------------------------- the selection before the cap

  lemma SettledKeepsBudgets(pool: Pool, params: Params, s: Selection)
    requires WithinBudgets(pool, params, s) && SettledKept(s.kept, s.live) == s.kept
    ensures WithinBudgets(pool, params, SettleAll(s))
  {
    forall section: Section ensures SectionOk(pool, params, SettleAll(s), section) {
      assert SectionOk(pool, params, s, section);
    }
  }

  lemma AdmittedFacts(x: Inputs)
    requires InputsOk(x)
    ensures WithinBudgets(x.candidates, x.params, Admitted(x)) && OnlyMembers(x.conflicts, Admitted(x))
    ensures WholeOrNothing(x.conflicts, Admitted(x))
  {
    OrderAdmitted(x, AdmissionOrder(x));
  }

  lemma OrderAdmitted(x: Inputs, order: seq<Conflict>)
    requires Demoted(x.candidates, x.conflicts) && Elements(order, x.conflicts)
    requires forall i, j :: 0 <= i < j < |order| ==> order[i] != order[j]
    ensures var s := SettleAll(AdmitSets(x.candidates, x.params, Nothing(x.conflicts), order));
            WithinBudgets(x.candidates, x.params, s) && OnlyMembers(x.conflicts, s) && WholeOrNothing(x.conflicts, s)
  {
    var s := AdmitSets(x.candidates, x.params, Nothing(x.conflicts), order);
    AdmitSetsFacts(x.candidates, x.params, x.conflicts, order);
    AdmittedIsSettled(x.candidates, x.params, x.conflicts, order);
    SettleAllIs(s);
    SettledKeepsBudgets(x.candidates, x.params, s);
  }

  lemma OthersLoose(x: Inputs)
    requires InputsOk(x)
    ensures Loose(x.candidates, x.conflicts, Others(x))
  {
    RankingStrictTotal(AllItems(x));
    assert SortedBy(Ranking(AllItems(x)), Others(x));
  }

  lemma SelectedFacts(x: Inputs)
    requires InputsOk(x)
    ensures TakeOk(x.candidates, x.params, x.conflicts, Selected(x)) && WholeOrNothing(x.conflicts, Selected(x))
    ensures KeySet(Selected(x).kept) <= x.candidates.Keys
    ensures forall k :: k in Selected(x).kept && k !in Members(x.conflicts) ==> k in FatedKept(x)
  {
    SelectedTaken(x);
    SelectedWhole(x);
  }

  lemma SelectedTaken(x: Inputs)
    requires InputsOk(x)
    ensures TakeOk(x.candidates, x.params, x.conflicts, Selected(x)) && KeySet(Selected(x).kept) <= x.candidates.Keys
  {
    AdmittedTakeOk(x);
    OthersLoose(x);
    TakeAllKeeps(x.candidates, x.params, x.cites, x.conflicts, Admitted(x), Others(x));
    KeptWithin(x.candidates, x.params, Selected(x));
  }

  lemma KeptWithin(pool: Pool, params: Params, s: Selection)
    requires WithinBudgets(pool, params, s)
    ensures KeySet(s.kept) <= pool.Keys
  {
  }

  lemma MembersOwnNoText(pool: Pool, conflicts: set<Conflict>, s: Selection)
    requires OnlyMembers(conflicts, s)
    ensures TextsOwned(pool, conflicts, s)
  {
    forall k | k in s.kept ensures k in Members(conflicts) {
      assert k in KeySet(s.kept);
    }
  }

  lemma AdmittedTakeOk(x: Inputs)
    requires InputsOk(x)
    ensures TakeOk(x.candidates, x.params, x.conflicts, Admitted(x))
  {
    AdmittedFacts(x);
    MembersOwnNoText(x.candidates, x.conflicts, Admitted(x));
  }

  lemma SelectedWhole(x: Inputs)
    requires InputsOk(x)
    ensures WholeOrNothing(x.conflicts, Selected(x))
    ensures forall k :: k in Selected(x).kept && k !in Members(x.conflicts) ==> k in FatedKept(x)
  {
    AdmittedFacts(x);
    OthersLoose(x);
    SelectedIs(x);
    LooseAdded(x.conflicts, Admitted(x), Selected(x), Keep(Others(x), FatedKept(x)));
    AllMembers(x.conflicts, Admitted(x), Selected(x).kept, Keep(Others(x), FatedKept(x)));
  }

  lemma AllMembers(conflicts: set<Conflict>, s: Selection, kept: seq<Key>, more: seq<Key>)
    requires OnlyMembers(conflicts, s) && kept == s.kept + more
    ensures forall k :: k in kept && k !in Members(conflicts) ==> k in more
  {
    forall k | k in kept && k !in Members(conflicts) ensures k in more {
      assert k in s.kept ==> k in KeySet(s.kept);
    }
  }

  /** The main loop adds the candidates it keeps to the admitted conflict sets. */
  lemma SelectedIs(x: Inputs)
    requires InputsOk(x) && Loose(x.candidates, x.conflicts, Others(x))
    ensures Selected(x).kept == Admitted(x).kept + Keep(Others(x), FatedKept(x)) && Selected(x).live == Admitted(x).live
    ensures forall k :: k in Keep(Others(x), FatedKept(x)) ==> k in FatedKept(x) && k !in Members(x.conflicts)
  {
    FatesCounted(x.candidates, x.params, x.cites, x.conflicts, Admitted(x), Others(x));
    KeptAreFated(x.candidates, x.params, x.cites, x.conflicts, Admitted(x), Others(x));
  }

  /** Adding items from outside the conflicts breaks no set. */
  lemma LooseAdded(conflicts: set<Conflict>, s: Selection, t: Selection, more: seq<Key>)
    requires WholeOrNothing(conflicts, s) && t.kept == s.kept + more && t.live == s.live
    requires forall k :: k in more ==> k !in Members(conflicts)
    ensures WholeOrNothing(conflicts, t)
  {
  }

  /** Candidates by what became of them in the main loop. */
  ghost function FatedIn(x: Inputs, fate: Fate): set<Key>
    requires InputsOk(x)
  {
    Fated(x.candidates, x.params, x.cites, Admitted(x), Others(x), fate)
  }

  ghost function FatedKept(x: Inputs): set<Key>
    requires InputsOk(x)
  {
    FatedIn(x, Kept)
  }

  // ---------------------------------------------------------------- raw rows

  lemma {:induction false} AddRowsFacts(x: Inputs, s: Selection, ks: seq<Key>)
    requires InputsOk(x) && x.rows.Some? && (forall k :: k in ks ==> k in RawItems(x.rows.value))
    requires WholeOrNothing(x.conflicts, s) && TextsOwned(AllItems(x), x.conflicts, s) && KeySet(s.kept) <= s.keys
    ensures var t := AddRows(AllItems(x), s, ks);
            && WholeOrNothing(x.conflicts, t) && TextsOwned(AllItems(x), x.conflicts, t) && KeySet(t.kept) <= t.keys
            && KeySet(s.kept) <= KeySet(t.kept) <= KeySet(s.kept) + KeySet(ks)
            && t.live == s.live
  {
    if ks != [] {
      var most, last := ks[..|ks| - 1], ks[|ks| - 1];
      assert last in ks;
      AddRowsFacts(x, s, most);
      AddRowFacts(x, AddRows(AllItems(x), s, most), last);
    }
  }

  lemma AddRowFacts(x: Inputs, s: Selection, k: Key)
    requires InputsOk(x) && x.rows.Some? && k in RawItems(x.rows.value)
    requires WholeOrNothing(x.conflicts, s) && TextsOwned(AllItems(x), x.conflicts, s) && KeySet(s.kept) <= s.keys
    ensures var t := AddRow(AllItems(x), s, k);
            && WholeOrNothing(x.conflicts, t) && TextsOwned(AllItems(x), x.conflicts, t) && KeySet(t.kept) <= t.keys
            && KeySet(s.kept) <= KeySet(t.kept) <= KeySet(s.kept) + {k}
            && t.live == s.live
  {
    assert k !in Members(x.conflicts);
    var t := AddRow(AllItems(x), s, k);
    if t.kept != s.kept {
      assert t.kept == s.kept + [k];
      LooseAdded(x.conflicts, s, t, [k]);
      RowTextsOwned(AllItems(x), x.conflicts, s, t, k);
    }
  }

  lemma RowTextsOwned(pool: Pool, conflicts: set<Conflict>, s: Selection, t: Selection, k: Key)
    requires TextsOwned(pool, conflicts, s) && k in pool && pool[k].digest !in s.digests
    requires t.kept == s.kept + [k] && t.digests == s.digests[pool[k].digest := k]
    ensures TextsOwned(pool, conflicts, t)
  {
  }

  lemma TextsStay(pool: Pool, conflicts: set<Conflict>, s: Selection, t: Selection)
    requires TextsOwned(pool, conflicts, s) && KeySet(t.kept) <= KeySet(s.kept) && t.digests == s.digests
    ensures TextsOwned(pool, conflicts, t)
  {
    forall k | k in t.kept && k !in Members(conflicts)
      ensures k in pool && pool[k].digest in t.digests && t.digests[pool[k].digest] == k
    {
      assert k in KeySet(s.kept);
    }
  }

  /** What the raw fallback adds, before the second cap; nothing when it is not used. */
  ghost function RawAdded(x: Inputs): set<Key> { if x.rows.Some? then KeySet(Picked(x)) else {} }

  /** Everything that holds of a selection from the first cap on. */
  ghost predicate Sound(x: Inputs, s: Selection) {
    && WholeOrNothing(x.conflicts, s) && SortedBy(Ranking(AllItems(x)), s.kept) && |s.kept| <= x.params.maxItems
    && TextsOwned(AllItems(x), x.conflicts, s) && KeySet(s.kept) <= s.keys
  }

  lemma CappedSound(x: Inputs)
    requires InputsOk(x)
    ensures Sound(x, Capped(x))
    ensures OnlyDrops(AllItems(x), x.conflicts, KeySet(Selected(x).kept), KeySet(Capped(x).kept))
  {
    SelectedFacts(x);
    CapFacts(AllItems(x), x.conflicts, x.params, Selected(x));
    TextsInAll(x, Selected(x));
    TextsStay(AllItems(x), x.conflicts, Selected(x), Capped(x));
  }

  lemma TextsInAll(x: Inputs, s: Selection)
    requires TextsOwned(x.candidates, x.conflicts, s)
    ensures TextsOwned(AllItems(x), x.conflicts, s)
  {
  }

  lemma FallbackSound(x: Inputs)
    requires InputsOk(x)
    ensures Sound(x, Fallback(x, Capped(x)))
    ensures OnlyDrops(AllItems(x), x.conflicts, KeySet(Capped(x).kept),
                      KeySet(Fallback(x, Capped(x)).kept) - RawAdded(x))
    ensures KeySet(Fallback(x, Capped(x)).kept) <= KeySet(Capped(x).kept) + RawAdded(x)
  {
    var s := Capped(x);
    CappedSound(x);
    SelectedFacts(x);
    if NeedsRaw(x, s) && x.rows.Some? {
      var added := AddRows(AllItems(x), s, Picked(x));
      AddRowsFacts(x, s, Picked(x));
      CapFacts(AllItems(x), x.conflicts, x.params, added);
      TextsStay(AllItems(x), x.conflicts, added, Fallback(x, s));
    } else {
      CandidatesAreNotRaw(x);
    }
  }

  lemma CandidatesAreNotRaw(x: Inputs)
    requires InputsOk(x)
    ensures KeySet(Capped(x).kept) !! RawAdded(x)
  {
    SelectedFacts(x);
    CappedSound(x);
    assert KeySet(Capped(x).kept) <= x.candidates.Keys;
  }

  lemma ComposedSound(x: Inputs)
    requires InputsOk(x)
    ensures Sound(x, Composed(x))
    ensures OnlyDrops(AllItems(x), x.conflicts, KeySet(Fallback(x, Capped(x)).kept), KeySet(Composed(x).kept))
  {
    FallbackSound(x);
    var s := Fallback(x, Capped(x));
    TrimFacts(x, AllItems(x), x.conflicts, s);
    TextsStay(AllItems(x), x.conflicts, s, Composed(x));
    TrimKeys(x, s);
  }

  lemma {:induction false} TrimKeys(x: Inputs, s: Selection)
    ensures Trim(x, s).keys == s.keys
    decreases |s.kept|
  {
    if TooLong(x, s) {
      TrimKeys(x, Pop(s));
    }
  }

  // ---------------------------------------------------------------- main results

  /**
   * No side of a live conflict is shown alone: sets still live are whole, and every conflict member shown is in one.
   */
  lemma ConflictsShownWhole(x: Inputs)
    requires InputsOk(x)
    ensures forall c :: c in Composed(x).live ==> c in x.conflicts && c.members <= KeySet(Composed(x).kept)
    ensures forall k :: k in Composed(x).kept && k in Members(x.conflicts) ==>
                          exists c :: c in Composed(x).live && k in c.members
  {
    ComposedSound(x);
    forall k | k in Composed(x).kept && k in Members(x.conflicts)
      ensures exists c :: c in Composed(x).live && k in c.members
    {
      assert k in Members(Composed(x).live);
    }
  }

  /**
   * An experience pack is ranked, within the total cap, names no memory twice, and outside the conflicts repeats no
   * text.
   */
  lemma PackIsBounded(x: Inputs)
    requires InputsOk(x)
    ensures |Composed(x).kept| <= x.params.maxItems
    ensures SortedBy(Ranking(AllItems(x)), Composed(x).kept)
    ensures forall i, j :: 0 <= i < j < |Composed(x).kept| ==> Composed(x).kept[i] != Composed(x).kept[j]
    ensures forall k :: k in Composed(x).kept ==> k in AllItems(x)
    ensures forall j, k :: (j in Composed(x).kept && k in Composed(x).kept && j != k && j !in Members(x.conflicts)
                            && k !in Members(x.conflicts)) ==> AllItems(x)[j].digest != AllItems(x)[k].digest
  {
    ComposedSound(x);
    RankingStrictTotal(AllItems(x));
    KeptInPool(x);
  }

  lemma KeptInPool(x: Inputs)
    requires InputsOk(x)
    ensures KeySet(Composed(x).kept) <= AllItems(x).Keys
    ensures KeySet(Composed(x).kept) <= KeySet(Selected(x).kept) + RawAdded(x)
  {
    ComposedSound(x);
    FallbackSound(x);
    CappedSound(x);
    SelectedFacts(x);
  }

  /**
   * Each section stays within its budget; the raw section within its budget or one, because a row is taken before it is
   * counted.
   */
  lemma SectionsWithinBudget(x: Inputs, section: Section)
    requires InputsOk(x)
    ensures |SectionKeys(AllItems(x), Composed(x).kept, section)| <=
              if section == RAW_EVIDENCE && x.params.budget(section) == 0 then 1 else x.params.budget(section)
  {
    KeptInPool(x);
    SelectedFacts(x);
    var shown := SectionKeys(AllItems(x), Composed(x).kept, section);
    ShownBySection(x, Composed(x).kept, Selected(x).kept, section);
    if section == RAW_EVIDENCE {
      if x.rows.Some? {
        PickedWithinBudget(x);
        FewerThan(shown, RawAdded(x));
      }
    } else {
      assert SectionOk(x.candidates, x.params, Selected(x), section);
      FewerThan(shown, SectionKeys(x.candidates, Selected(x).kept, section));
    }
  }

  lemma ItemsBySource(x: Inputs, k: Key)
    requires InputsOk(x)
    ensures k in x.candidates ==>
              k in AllItems(x) && AllItems(x)[k] == x.candidates[k] && AllItems(x)[k].section != RAW_EVIDENCE
    ensures k in RawAdded(x) ==> k !in x.candidates && k in AllItems(x) && AllItems(x)[k].section == RAW_EVIDENCE
  {
  }

  /** Shown items of the raw section are picked rows, those of any other section are candidates that were selected. */
  lemma ShownBySection(x: Inputs, shown: seq<Key>, selected: seq<Key>, section: Section)
    requires InputsOk(x) && KeySet(selected) <= x.candidates.Keys && KeySet(shown) <= KeySet(selected) + RawAdded(x)
    ensures section == RAW_EVIDENCE ==> SectionKeys(AllItems(x), shown, section) <= RawAdded(x)
    ensures section != RAW_EVIDENCE ==>
              SectionKeys(AllItems(x), shown, section) <= SectionKeys(x.candidates, selected, section)
  {
    forall k | k in SectionKeys(AllItems(x), shown, section)
      ensures if section == RAW_EVIDENCE then k in RawAdded(x) else k in SectionKeys(x.candidates, selected, section)
    {
      assert k in KeySet(shown);
      assert k in KeySet(selected) || k in RawAdded(x);
      ItemsBySource(x, k);
    }
  }

  lemma PickedWithinBudget(x: Inputs)
    requires InputsOk(x) && x.rows.Some?
    ensures |KeySet(Picked(x))| <= if x.params.budget(RAW_EVIDENCE) == 0 then 1 else x.params.budget(RAW_EVIDENCE)
  {
    RowRankingStrictTotal(x.rows.value);
    PickedFew(x.rows.value, Arranged(RowRanking(x.rows.value), x.rows.value.Keys), x.params.budget(RAW_EVIDENCE));
    KeySetSize(Picked(x));
  }

  lemma {:induction false} KeySetSize(s: seq<Key>)
    ensures |KeySet(s)| <= |s|
  {
    if s != [] {
      var most := s[..|s| - 1];
      KeySetSize(most);
      assert KeySet(s) == KeySet(most) + {s[|s| - 1]};
    }
  }

  lemma {:induction false} PickedFew(rows: Rows, order: seq<Key>, budget: nat)
    requires forall k :: k in order ==> k in rows
    ensures |PickRows(rows, order, budget)| <= if budget == 0 then 1 else budget
  {
    if order != [] {
      PickedFew(rows, order[..|order| - 1], budget);
    }
  }

  // ---------------------------------------------------------------- priority

  /**
   * A candidate outside the conflicts that the total cap or the trim dropped ranks below every item that is shown,
   * other than raw evidence; and one dropped on its section's budget ranks below everything shown of its section,
   * conflicts aside.
   */
  lemma DroppedRanksBelow(x: Inputs, k: Key, other: Key)
    requires InputsOk(x) && other in Composed(x).kept && other in x.candidates && k in x.candidates
    requires k !in Members(x.conflicts)
    requires k !in Composed(x).kept
    ensures k in FatedIn(x, Kept) ==> Ranking(AllItems(x))(other, k)
    ensures (k in FatedIn(x, OverBudget) && other !in Members(x.conflicts) &&
             x.candidates[other].section == x.candidates[k].section)
              ==> Ranking(AllItems(x))(other, k)
  {
    SelectedFacts(x);
    CappedSound(x);
    FallbackSound(x);
    ComposedSound(x);
    KeptInPool(x);
    OthersLoose(x);
    ItemsBySource(x, other);
    assert other in KeySet(Composed(x).kept);
    assert other !in RawAdded(x) && other in KeySet(Selected(x).kept);
    if k in FatedIn(x, Kept) {
      KeptAreFated(x.candidates, x.params, x.cites, x.conflicts, Admitted(x), Others(x));
      assert k in Selected(x).kept;
      DroppedInTurn(x, k, other);
    }
    if k in FatedIn(x, OverBudget) && other !in Members(x.conflicts) &&
      x.candidates[other].section == x.candidates[k].section {
      OverBudgetBelow(x, k, other);
    }
  }

  lemma DroppedInTurn(x: Inputs, k: Key, other: Key)
    requires InputsOk(x) && k in Selected(x).kept && k !in Members(x.conflicts)
    requires k !in Composed(x).kept && other in Composed(x).kept && other !in RawAdded(x)
    requires OnlyDrops(AllItems(x), x.conflicts, KeySet(Selected(x).kept), KeySet(Capped(x).kept))
    requires OnlyDrops(AllItems(x), x.conflicts, KeySet(Capped(x).kept),
                       KeySet(Fallback(x, Capped(x)).kept) - RawAdded(x))
    requires OnlyDrops(AllItems(x), x.conflicts, KeySet(Fallback(x, Capped(x)).kept), KeySet(Composed(x).kept))
    ensures Ranking(AllItems(x))(other, k)
  {
    var a, b := KeySet(Selected(x).kept), KeySet(Capped(x).kept);
    var c, d := KeySet(Fallback(x, Capped(x)).kept), KeySet(Composed(x).kept);
    assert other in d && other in c - RawAdded(x) && other in b && k in a && k !in d;
    if k in b && k in c {
      assert Ranking(AllItems(x))(other, k);
    }
  }

  lemma OverBudgetBelow(x: Inputs, k: Key, other: Key)
    requires InputsOk(x) && Loose(x.candidates, x.conflicts, Others(x))
    requires k in FatedIn(x, OverBudget) && other in FatedIn(x, Kept)
    requires k in x.candidates && other in x.candidates && x.candidates[other].section == x.candidates[k].section
    ensures Ranking(AllItems(x))(other, k)
  {
    SameRanking(x);
    OverBudgetRanksBelow(x.candidates, x.params, x.cites, x.conflicts, Admitted(x), Others(x), k, other);
    RankingAgrees(x, other, k);
  }

  /** Raw rows do not change how candidates rank among each other. */
  lemma RankingAgrees(x: Inputs, a: Key, b: Key)
    requires InputsOk(x) && a in x.candidates && b in x.candidates
    ensures Ranking(x.candidates)(a, b) == Ranking(AllItems(x))(a, b)
  {
    RankAgrees(x, a);
    RankAgrees(x, b);
  }

  lemma RankAgrees(x: Inputs, k: Key)
    requires InputsOk(x) && k in x.candidates
    ensures RankOf(x.candidates, k) == RankOf(AllItems(x), k)
  {
    ItemsBySource(x, k);
  }

  lemma SameRanking(x: Inputs)
    requires InputsOk(x)
    ensures SortedBy(Ranking(x.candidates), Others(x))
  {
    var r := Others(x);
    forall i, j | 0 <= i < j < |r| ensures Ranking(x.candidates)(r[i], r[j]) {
      assert r[i] in r && r[j] in r;
      RankingAgrees(x, r[i], r[j]);
    }
  }

  // ---------------------------------------------------------------- raw evidence

  /** At most two raw rows of one source or knowledge item are picked. */
  lemma {:induction false} PickedPerGroup(rows: Rows, order: seq<Key>, budget: nat, group: Option<string>)
    requires forall k :: k in order ==> k in rows
    ensures |OfGroup(rows, PickRows(rows, order, budget), group)| <= RAW_PER_GROUP
  {
    if order == [] {
      assert OfGroup(rows, [], group) == {};
    } else {
      var most, k := order[..|order| - 1], order[|order| - 1];
      var before := PickRows(rows, most, budget);
      PickedPerGroup(rows, most, budget, group);
      if PickRows(rows, order, budget) == before + [k] {
        if rows[k].item.Some? && rows[k].item.value.group == group {
          assert OfGroup(rows, before + [k], group) == OfGroup(rows, before, group) + {k};
        } else {
          assert OfGroup(rows, before + [k], group) == OfGroup(rows, before, group);
        }
      }
    }
  }

  /** Raw evidence is shown only in packs that show no current decision, accepted procedure or validated lesson. */
  lemma RawOnlyWithoutPrimary(x: Inputs, raw: Key, k: Key)
    requires InputsOk(x) && raw in Composed(x).kept && raw !in x.candidates
    requires k in Composed(x).kept && k in x.candidates
    ensures x.rawAllowed && !Primary(x.candidates[k].section)
  {
    ComposedSound(x);
    FallbackSound(x);
    CappedSound(x);
    SelectedFacts(x);
    ItemsBySource(x, k);
    assert raw in KeySet(Fallback(x, Capped(x)).kept) && k in KeySet(Fallback(x, Capped(x)).kept);
    assert raw !in KeySet(Capped(x).kept) && k in KeySet(Capped(x).kept);
  }
}
