/** Which conflicts a composed pack shows whole, which not at all, and when one of them is shown in part. */
module PackConflicts {
  import opened PackModel
  import opened PackSettle
  import opened PackSelect
  import opened PackFates
  import opened PackCompose
  import opened PackGuarantees
  import opened PackAccounting
  import opened Sorting

  ghost function Shown(x: Inputs): set<Key>
    requires InputsOk(x)
  {
    KeySet(Composed(x).kept)
  }

  /** Some members of the conflict are among the keys and some are not. */
  predicate Split(c: Conflict, keys: set<Key>) { !(c.members <= keys) && !(c.members !! keys) }

  // ---------------------------------------------------------------- one stage after the other

  /** From s to t sets are only deleted, each with all its members and each counted, and no conflict member is added. */
  ghost predicate Follows(conflicts: set<Conflict>, s: Selection, t: Selection) {
    && t.live <= s.live
    && (forall k :: k in t.kept && k in Members(conflicts) ==> k in s.kept)
    && (forall c :: c in s.live && c !in t.live ==> c.members !! KeySet(t.kept))
    && t.diag.conflictSets + |t.live| == s.diag.conflictSets + |s.live|
  }

  lemma FollowsOn(conflicts: set<Conflict>, s: Selection, t: Selection, u: Selection)
    requires s.live <= conflicts && Follows(conflicts, s, t) && Follows(conflicts, t, u)
    ensures Follows(conflicts, s, u)
  {
    assert KeySet(u.kept) * Members(conflicts) <= KeySet(t.kept);
    forall c | c in s.live && c !in u.live ensures c.members !! KeySet(u.kept) {
      MembersOf(conflicts, c);
    }
  }

  lemma MembersOf(conflicts: set<Conflict>, c: Conflict)
    requires c in conflicts
    ensures c.members <= Members(conflicts)
  {
  }

  lemma SettleFollows(conflicts: set<Conflict>, s: Selection)
    ensures Follows(conflicts, s, SettleAll(s))
  {
    SettleFacts(s.kept, s.live);
    FewerThan(SettledLive(s.kept, s.live), s.live);
  }

  lemma CapFollows(pool: Pool, params: Params, conflicts: set<Conflict>, s: Selection)
    ensures Follows(conflicts, s, Cap(pool, params, s))
  {
    var ranked := s.(kept := Ranked(pool, KeySet(s.kept)));
    assert forall k :: k in ranked.kept ==> k in KeySet(s.kept);
    if |ranked.kept| > params.maxItems {
      var short := Shortened(ranked, params.maxItems);
      SettleFollows(conflicts, short);
      CutFollows(conflicts, s, ranked, short, SettleAll(short));
    }
  }

  /** What is cut off before settling was there before. */
  lemma CutFollows(conflicts: set<Conflict>, s: Selection, ranked: Selection, short: Selection, t: Selection)
    requires short.kept <= ranked.kept && (forall k :: k in ranked.kept ==> k in s.kept)
    requires short.live == s.live && short.diag.conflictSets == s.diag.conflictSets && Follows(conflicts, short, t)
    ensures Follows(conflicts, s, t)
  {
    assert forall k :: k in short.kept ==> k in ranked.kept;
  }

  lemma PopFollows(conflicts: set<Conflict>, s: Selection)
    requires s.kept != []
    ensures Follows(conflicts, s, Pop(s))
  {
    var short := s.(kept := s.kept[..|s.kept| - 1], diag := s.diag.(packBytes := s.diag.packBytes + 1));
    SettleFollows(conflicts, short);
    CutFollows(conflicts, s, s, short, Pop(s));
  }

  lemma {:induction false} TrimFollows(x: Inputs, conflicts: set<Conflict>, s: Selection)
    requires s.live <= conflicts
    ensures Follows(conflicts, s, Trim(x, s))
    decreases |s.kept|
  {
    if TooLong(x, s) {
      PopFollows(conflicts, s);
      TrimFollows(x, conflicts, Pop(s));
      FollowsOn(conflicts, s, Pop(s), Trim(x, Pop(s)));
    }
  }

  lemma SelectedFollows(x: Inputs)
    requires InputsOk(x)
    ensures Follows(x.conflicts, Admitted(x), Selected(x))
  {
    OthersLoose(x);
    SelectedIs(x);
    FatesCounted(x.candidates, x.params, x.cites, x.conflicts, Admitted(x), Others(x));
    assert forall k :: k in Selected(x).kept ==> k in Admitted(x).kept || k in Keep(Others(x), FatedKept(x));
  }

  lemma {:induction false} RowsFollow(pool: Pool, conflicts: set<Conflict>, s: Selection, ks: seq<Key>)
    requires forall k :: k in ks ==> k in pool && k !in Members(conflicts)
    ensures Follows(conflicts, s, AddRows(pool, s, ks)) && AddRows(pool, s, ks).live == s.live
  {
    if ks != [] {
      assert ks[|ks| - 1] in ks;
      RowsFollow(pool, conflicts, s, ks[..|ks| - 1]);
    }
  }

  lemma RowOutsideConflicts(x: Inputs, k: Key)
    requires InputsOk(x) && x.rows.Some? && k in KeySet(Picked(x))
    ensures k !in Members(x.conflicts)
  {
    ItemsBySource(x, k);
  }

  lemma FallbackFollows(x: Inputs)
    requires InputsOk(x)
    ensures Follows(x.conflicts, Capped(x), Fallback(x, Capped(x)))
  {
    var s := Capped(x);
    CappedSound(x);
    if NeedsRaw(x, s) && x.rows.Some? {
      var added := AddRows(AllItems(x), s, Picked(x));
      forall k | k in Picked(x) ensures k !in Members(x.conflicts) {
        RowOutsideConflicts(x, k);
      }
      RowsFollow(AllItems(x), x.conflicts, s, Picked(x));
      CapFollows(AllItems(x), x.params, x.conflicts, added);
      FollowsOn(x.conflicts, s, added, Fallback(x, s));
    }
  }

  lemma ComposedFollows(x: Inputs)
    requires InputsOk(x)
    ensures Follows(x.conflicts, Admitted(x), Composed(x)) && Admitted(x).live <= x.conflicts
  {
    var a, s, c, f := Admitted(x), Selected(x), Capped(x), Fallback(x, Capped(x));
    AdmittedFacts(x);
    SelectedFollows(x);
    CapFollows(AllItems(x), x.params, x.conflicts, s);
    FollowsOn(x.conflicts, a, s, c);
    FallbackFollows(x);
    FollowsOn(x.conflicts, a, c, f);
    TrimFollows(x, x.conflicts, f);
    FollowsOn(x.conflicts, a, f, Composed(x));
  }

  // ---------------------------------------------------------------- the sets that are dropped are counted

  lemma {:induction false} AdmissionCounted(pool: Pool, params: Params, conflicts: set<Conflict>, order: seq<Conflict>)
    requires Demoted(pool, conflicts) && (forall c :: c in order ==> c in conflicts)
    requires forall i, j :: 0 <= i < j < |order| ==> order[i] != order[j]
    ensures var s := AdmitSets(pool, params, Nothing(conflicts), order);
            s.diag.conflictSets + |s.live| == |conflicts|
  {
    if order != [] {
      var most, last := order[..|order| - 1], order[|order| - 1];
      assert last in order && last !in most;
      AdmissionCounted(pool, params, conflicts, most);
      AdmitSetsFacts(pool, params, conflicts, most);
      AdmitSetCounted(pool, params, AdmitSets(pool, params, Nothing(conflicts), most), last);
    }
  }

  lemma AdmitSetCounted(pool: Pool, params: Params, s: Selection, c: Conflict)
    requires c.members <= pool.Keys && c in s.live
    ensures var t := AdmitSet(pool, params, s, c); t.diag.conflictSets + |t.live| == s.diag.conflictSets + |s.live|
  {
    if Fits(params, s, |Missing(s, c)|) {
      AdmitAllLive(pool, s, Missing(s, c));
      AdmitAllCounts(pool, s, Missing(s, c));
    }
  }

  /** The counter of dropped sets is exact: every conflict is still live at the end, or counted once. */
  lemma DroppedSetsAreCounted(x: Inputs)
    requires InputsOk(x)
    ensures Composed(x).live <= x.conflicts && Composed(x).diag.conflictSets == |x.conflicts| - |Composed(x).live|
  {
    var s := AdmitSets(x.candidates, x.params, Nothing(x.conflicts), AdmissionOrder(x));
    AdmissionCounted(x.candidates, x.params, x.conflicts, AdmissionOrder(x));
    SettleFollows(x.conflicts, s);
    ComposedFollows(x);
  }

  // ---------------------------------------------------------------- which conflicts are whole

  /** A conflict is shown whole iff all its members lie in live sets, and absent iff none does. */
  lemma ShownExactlyWhen(x: Inputs, c: Conflict)
    requires InputsOk(x) && c in x.conflicts
    ensures c.members <= Shown(x) <==> c.members <= Members(Composed(x).live)
    ensures c.members !! Shown(x) <==> c.members !! Members(Composed(x).live)
    ensures Split(c, Shown(x)) <==> Split(c, Members(Composed(x).live))
  {
    ConflictsShownWhole(x);
    forall k | k in c.members ensures k in Shown(x) <==> k in Members(Composed(x).live) {
      assert k in Members(x.conflicts);
    }
  }

  /**
   * Only a set that was refused at its turn, because its missing members overflowed the section, can be shown in part.
   */
  lemma SplitMeansRefused(x: Inputs, c: Conflict) returns (i: nat)
    requires InputsOk(x) && c in x.conflicts && Split(c, Shown(x))
    ensures i < |x.conflicts| && AdmissionOrder(x)[i] == c
    ensures Overflows(x.params, AdmitSets(x.candidates, x.params, Nothing(x.conflicts), AdmissionOrder(x)[..i]), c)
  {
    ComposedFollows(x);
    ConflictsShownWhole(x);
    var order := AdmissionOrder(x);
    var s := AdmitSets(x.candidates, x.params, Nothing(x.conflicts), order);
    AdmittedIsSettled(x.candidates, x.params, x.conflicts, order);
    assert c !in Admitted(x).live && c !in s.live;
    i := RefusedSetDidNotFit(x.candidates, x.params, Nothing(x.conflicts), order, c);
  }

  // ---------------------------------------------------------------- the exact condition, at the guard

  /** At its turn the missing members of the i-th set overflow the section. */
  ghost predicate OverflowsAt(x: Inputs, i: nat)
    requires InputsOk(x) && i < |x.conflicts|
  {
    Overflows(x.params, AdmitSets(x.candidates, x.params, Nothing(x.conflicts), AdmissionOrder(x)[..i]),
              AdmissionOrder(x)[i])
  }

  /** The members of all sets that do not overflow it. */
  ghost function Covered(x: Inputs): set<Key>
    requires InputsOk(x)
  {
    set i, k | 0 <= i < |x.conflicts| && !OverflowsAt(x, i) && k in AdmissionOrder(x)[i].members :: k
  }

  lemma {:induction false} LiveShrinks(pool: Pool, params: Params, s: Selection, order: seq<Conflict>, i: nat)
    requires i <= |order| && forall d :: d in order ==> d.members <= pool.Keys
    ensures forall d :: d in order[..i] ==> d.members <= pool.Keys
    ensures AdmitSets(pool, params, s, order).live <= AdmitSets(pool, params, s, order[..i]).live
  {
    if i == |order| {
      assert order[..i] == order;
    } else {
      var most, last := order[..|order| - 1], order[|order| - 1];
      PrefixElements(order);
      PrefixOfPrefix(order, i);
      LiveShrinks(pool, params, s, most, i);
      assert last in order;
      AdmitSetLive(pool, params, AdmitSets(pool, params, s, most), last);
    }
  }

  lemma RefusedAtItsTurn(pool: Pool, params: Params, s: Selection, order: seq<Conflict>, i: nat)
    requires i < |order| && forall d :: d in order ==> d.members <= pool.Keys
    requires Overflows(params, AdmitSets(pool, params, s, order[..i]), order[i])
    ensures order[i] !in AdmitSets(pool, params, s, order).live
  {
    LiveShrinks(pool, params, s, order, i);
    LiveShrinks(pool, params, s, order, i + 1);
    assert order[i] in order;
    PrefixGrows(order, i);
    RefusedNow(pool, params, s, order[..i], order[i]);
  }

  lemma PrefixGrows<T>(s: seq<T>, i: nat)
    requires i < |s|
    ensures s[..i + 1] == s[..i] + [s[i]]
  {
  }

  lemma RefusedNow(pool: Pool, params: Params, s: Selection, before: seq<Conflict>, c: Conflict)
    requires (forall d :: d in before ==> d.members <= pool.Keys) && c.members <= pool.Keys
    requires Overflows(params, AdmitSets(pool, params, s, before), c)
    ensures forall d :: d in before + [c] ==> d.members <= pool.Keys
    ensures c !in AdmitSets(pool, params, s, before + [c]).live
  {
    assert (before + [c])[..|before|] == before;
    AdmitSetLive(pool, params, AdmitSets(pool, params, s, before), c);
  }

  /** A set is refused exactly when it overflows the section at its turn. */
  lemma RefusedExactlyWhen(x: Inputs, i: nat)
    requires InputsOk(x) && i < |x.conflicts|
    ensures AdmissionOrder(x)[i] !in Admitted(x).live <==> OverflowsAt(x, i)
  {
    var order := AdmissionOrder(x);
    AdmittedIsSettled(x.candidates, x.params, x.conflicts, order);
    assert order[i] in order;
    if order[i] !in Admitted(x).live {
      var j := RefusedSetDidNotFit(x.candidates, x.params, Nothing(x.conflicts), order, order[i]);
      assert i == j;
    }
    if OverflowsAt(x, i) {
      RefusedAtItsTurn(x.candidates, x.params, Nothing(x.conflicts), order, i);
    }
  }

  /** Right after admission exactly the covered members are shown. */
  lemma CoveredIsAdmitted(x: Inputs)
    requires InputsOk(x)
    ensures KeySet(Admitted(x).kept) == Covered(x)
  {
    LiveIsCovered(x);
    AdmittedFacts(x);
    MembersShown(x.conflicts, Admitted(x));
  }

  lemma MembersShown(conflicts: set<Conflict>, s: Selection)
    requires WholeOrNothing(conflicts, s) && OnlyMembers(conflicts, s)
    ensures KeySet(s.kept) == Members(s.live)
  {
    forall k ensures k in KeySet(s.kept) <==> k in Members(s.live) {
    }
  }

  lemma LiveIsCovered(x: Inputs)
    requires InputsOk(x)
    ensures Members(Admitted(x).live) == Covered(x)
  {
    forall k | k in Members(Admitted(x).live) ensures k in Covered(x) {
      var c :| c in Admitted(x).live && k in c.members;
      LiveCovers(x, c);
    }
    forall k | k in Covered(x) ensures k in Members(Admitted(x).live) {
      var i :| 0 <= i < |x.conflicts| && !OverflowsAt(x, i) && k in AdmissionOrder(x)[i].members;
      RefusedExactlyWhen(x, i);
      MembersOf(Admitted(x).live, AdmissionOrder(x)[i]);
    }
  }

  lemma LiveCovers(x: Inputs, c: Conflict)
    requires InputsOk(x) && c in Admitted(x).live
    ensures c.members <= Covered(x)
  {
    AdmittedFacts(x);
    assert c in AdmissionOrder(x);
    var i :| 0 <= i < |x.conflicts| && AdmissionOrder(x)[i] == c;
    RefusedExactlyWhen(x, i);
  }

  /**
   * Right after admission a conflict is shown in part exactly when it overflowed the section at its turn and the sets
   * that did not cover some of its members, but not all.
   */
  lemma SplitAtAdmissionExactlyWhen(x: Inputs, i: nat)
    requires InputsOk(x) && i < |x.conflicts|
    ensures Split(AdmissionOrder(x)[i], KeySet(Admitted(x).kept)) <==>
              OverflowsAt(x, i) && Split(AdmissionOrder(x)[i], Covered(x))
  {
    CoveredIsAdmitted(x);
    if !OverflowsAt(x, i) {
      assert AdmissionOrder(x)[i].members <= Covered(x);
    }
  }

  /** And the same holds of what is shown in the end if neither a cap nor the trim drops anything. */
  lemma SplitExactlyWhen(x: Inputs, i: nat)
    requires InputsOk(x) && i < |x.conflicts|
    requires Composed(x).diag.totalItems == 0 && Composed(x).diag.packBytes == 0
    ensures Split(AdmissionOrder(x)[i], Shown(x)) <==> OverflowsAt(x, i) && Split(AdmissionOrder(x)[i], Covered(x))
  {
    SplitAtAdmissionExactlyWhen(x, i);
    NothingDropped(x);
    var c := AdmissionOrder(x)[i];
    assert c in AdmissionOrder(x);
    MembersOf(x.conflicts, c);
    SameSplit(c, Members(x.conflicts), Shown(x), KeySet(Admitted(x).kept));
  }

  lemma SameSplit(c: Conflict, members: set<Key>, a: set<Key>, b: set<Key>)
    requires c.members <= members && a * members == b * members
    ensures Split(c, a) <==> Split(c, b)
  {
    assert forall k :: k in c.members ==> (k in a <==> k in a * members) && (k in b <==> k in b * members);
  }

  /** Without drops the conflict members shown are those admitted. */
  lemma NothingDropped(x: Inputs)
    requires InputsOk(x) && Composed(x).diag.totalItems == 0 && Composed(x).diag.packBytes == 0
    ensures Shown(x) * Members(x.conflicts) == KeySet(Admitted(x).kept) * Members(x.conflicts)
  {
    var a, s, c, f := Admitted(x), Selected(x), Capped(x), Fallback(x, Capped(x));
    TrimCounts(x, f);
    FallbackCounts(x, c);
    CapCounts(AllItems(x), x.params, s);
    SelectedMembers(x);
    FallbackMembers(x);
  }

  lemma {:induction false} TrimCounts(x: Inputs, s: Selection)
    ensures Trim(x, s).diag.packBytes >= s.diag.packBytes && Trim(x, s).diag.totalItems == s.diag.totalItems
    ensures Trim(x, s).diag.packBytes == s.diag.packBytes ==> Trim(x, s) == s
    decreases |s.kept|
  {
    if TooLong(x, s) {
      TrimCounts(x, Pop(s));
    }
  }

  lemma CapCounts(pool: Pool, params: Params, s: Selection)
    ensures Cap(pool, params, s).diag.totalItems >= s.diag.totalItems
    ensures Cap(pool, params, s).diag.packBytes == s.diag.packBytes
    ensures Cap(pool, params, s).diag.totalItems == s.diag.totalItems ==>
              KeySet(Cap(pool, params, s).kept) == KeySet(s.kept)
  {
  }

  lemma FallbackCounts(x: Inputs, s: Selection)
    requires InputsOk(x)
    ensures Fallback(x, s).diag.totalItems >= s.diag.totalItems && Fallback(x, s).diag.packBytes == s.diag.packBytes
    ensures Fallback(x, s).diag.totalItems == s.diag.totalItems && NeedsRaw(x, s) && x.rows.Some? ==>
              KeySet(Fallback(x, s).kept) == KeySet(AddRows(AllItems(x), s, Picked(x)).kept)
  {
    if NeedsRaw(x, s) && x.rows.Some? {
      AddRowsCounts(AllItems(x), s, Picked(x));
      CapCounts(AllItems(x), x.params, AddRows(AllItems(x), s, Picked(x)));
    }
  }

  lemma SelectedMembers(x: Inputs)
    requires InputsOk(x)
    ensures KeySet(Selected(x).kept) * Members(x.conflicts) == KeySet(Admitted(x).kept) * Members(x.conflicts)
  {
    OthersLoose(x);
    SelectedIs(x);
    LooseOutside(Members(x.conflicts), Admitted(x).kept, Keep(Others(x), FatedKept(x)));
  }

  lemma LooseOutside(members: set<Key>, kept: seq<Key>, more: seq<Key>)
    requires forall k :: k in more ==> k !in members
    ensures KeySet(kept + more) * members == KeySet(kept) * members
  {
    assert forall k :: k in kept + more <==> k in kept || k in more;
  }

  lemma FallbackMembers(x: Inputs)
    requires InputsOk(x)
    ensures var s := Capped(x);
            NeedsRaw(x, s) && x.rows.Some? ==>
              KeySet(AddRows(AllItems(x), s, Picked(x)).kept) * Members(x.conflicts) ==
                KeySet(s.kept) * Members(x.conflicts)
  {
    var s := Capped(x);
    if NeedsRaw(x, s) && x.rows.Some? {
      var t := AddRows(AllItems(x), s, Picked(x));
      CappedSound(x);
      AddRowsFacts(x, s, Picked(x));
      RawOutside(x);
      SameInside(Members(x.conflicts), KeySet(s.kept), KeySet(t.kept), RawAdded(x));
    }
  }

  lemma RawOutside(x: Inputs)
    requires InputsOk(x)
    ensures RawAdded(x) !! Members(x.conflicts)
  {
    forall k | k in RawAdded(x) ensures k !in Members(x.conflicts) {
      RowOutsideConflicts(x, k);
    }
  }

  lemma SameInside(members: set<Key>, a: set<Key>, b: set<Key>, more: set<Key>)
    requires a <= b <= a + more && more !! members
    ensures b * members == a * members
  {
  }

  // ---------------------------------------------------------------- conditions on the conflicts themselves

  /** Conflicts that share a member have all of them in common. */
  predicate Apart(conflicts: set<Conflict>) {
    forall c, d :: c in conflicts && d in conflicts ==> c.members !! d.members || c.members == d.members
  }

  lemma ApartNeverSplits(conflicts: set<Conflict>, live: set<Conflict>, c: Conflict)
    requires Apart(conflicts) && live <= conflicts && c in conflicts
    ensures !Split(c, Members(live))
  {
    if !(c.members !! Members(live)) {
      var k :| k in c.members && k in Members(live);
      var d :| d in live && k in d.members;
      MembersOf(live, d);
      assert c.members == d.members;
    }
  }

  /** Every conflict is whole or absent if no two overlap in part, or if all their members fit the section together. */
  lemma WholeOrAbsentWhen(x: Inputs, c: Conflict)
    requires InputsOk(x) && c in x.conflicts
    requires Apart(x.conflicts) || |Members(x.conflicts)| <= x.params.budget(CONFLICTS_AND_STALE)
    ensures c.members <= Shown(x) || c.members !! Shown(x)
  {
    if Apart(x.conflicts) {
      ShownExactlyWhen(x, c);
      DroppedSetsAreCounted(x);
      ApartNeverSplits(x.conflicts, Composed(x).live, c);
    } else {
      RoomNeverSplits(x, c);
    }
  }

  lemma RoomNeverSplits(x: Inputs, c: Conflict)
    requires InputsOk(x) && c in x.conflicts && |Members(x.conflicts)| <= x.params.budget(CONFLICTS_AND_STALE)
    ensures !Split(c, Shown(x))
  {
    if Split(c, Shown(x)) {
      var i := SplitMeansRefused(x, c);
      NoneOverflows(x.candidates, x.params, x.conflicts, AdmissionOrder(x), i, c);
    }
  }

  lemma NoneOverflows(pool: Pool, params: Params, conflicts: set<Conflict>, order: seq<Conflict>, i: nat, c: Conflict)
    requires Demoted(pool, conflicts) && c in conflicts && i <= |order| && (forall d :: d in order ==> d in conflicts)
    requires forall i, j :: 0 <= i < j < |order| ==> order[i] != order[j]
    requires |Members(conflicts)| <= params.budget(CONFLICTS_AND_STALE)
    ensures forall d :: d in order[..i] ==> d.members <= pool.Keys
    ensures !Overflows(params, AdmitSets(pool, params, Nothing(conflicts), order[..i]), c)
  {
    AdmitSetsFacts(pool, params, conflicts, order[..i]);
    MembersFit(pool, params, conflicts, AdmitSets(pool, params, Nothing(conflicts), order[..i]), c);
  }

  lemma MembersFit(pool: Pool, params: Params, conflicts: set<Conflict>, s: Selection, c: Conflict)
    requires Demoted(pool, conflicts) && c in conflicts && WithinBudgets(pool, params, s) && OnlyMembers(conflicts, s)
    requires |Members(conflicts)| <= params.budget(CONFLICTS_AND_STALE)
    ensures !Overflows(params, s, c)
  {
    assert SectionOk(pool, params, s, CONFLICTS_AND_STALE);
    assert forall k :: k in s.kept <==> k in s.keys;
    assert SectionKeys(pool, s.kept, CONFLICTS_AND_STALE) == s.keys;
    MembersOf(conflicts, c);
    FewerThan(s.keys + (c.members - s.keys), Members(conflicts));
  }

  // ---------------------------------------------------------------- a conflict shown in part

  /**
   * Two conflicts, tried in this order, nothing but them to show, room for the first, and no other limit in the way.
   */
  ghost predicate RoomForFirst(x: Inputs, first: Conflict, second: Conflict) {
    && InputsOk(x) && AdmissionOrder(x) == [first, second] && x.candidates.Keys <= first.members + second.members
    && x.params.budget(CONFLICTS_AND_STALE) == |first.members| <= x.params.maxItems
    && !x.rawAllowed && (forall s :: x.bytes(s) + 4 <= x.params.maxPackBytes)
  }

  /** Then the first is shown whole, and of the second only what it shares with the first. */
  lemma SecondShownInPart(x: Inputs, first: Conflict, second: Conflict)
    requires RoomForFirst(x, first, second) && !(second.members <= first.members)
    ensures Shown(x) == first.members
    ensures Split(second, Shown(x)) <==> !(first.members !! second.members)
  {
    AdmitsFirst(x, first, second);
    NoOthers(x, first, second);
    SelectedIsShown(x);
  }

  /** With room for two members, of the conflicts {a, b} and {b, c} the second is shown as b alone. */
  lemma TwoPairsAndRoomForTwo(x: Inputs, first: Conflict, second: Conflict, a: Key, b: Key, c: Key)
    requires RoomForFirst(x, first, second) && first.members == {a, b} && second.members == {b, c} && c != a && c != b
    ensures second in x.conflicts && b in Shown(x) && c !in Shown(x)
  {
    assert c in second.members && c !in first.members;
    SecondShownInPart(x, first, second);
    assert AdmissionOrder(x)[1] in AdmissionOrder(x);
  }

  lemma AdmitsFirst(x: Inputs, first: Conflict, second: Conflict)
    requires InputsOk(x) && AdmissionOrder(x) == [first, second]
    requires |first.members| == x.params.budget(CONFLICTS_AND_STALE) && !(second.members <= first.members)
    ensures KeySet(Admitted(x).kept) == first.members && |Admitted(x).kept| == |first.members|
  {
    assert AdmissionOrder(x)[0] in AdmissionOrder(x) && AdmissionOrder(x)[1] in AdmissionOrder(x);
    FirstOfTwo(x.candidates, x.params, x.conflicts, first, second);
    AdmittedIsSettled(x.candidates, x.params, x.conflicts, AdmissionOrder(x));
  }

  lemma FirstOfTwo(pool: Pool, params: Params, conflicts: set<Conflict>, first: Conflict, second: Conflict)
    requires Demoted(pool, conflicts) && first in conflicts && second in conflicts && !(second.members <= first.members)
    requires |first.members| == params.budget(CONFLICTS_AND_STALE)
    ensures var s := AdmitSets(pool, params, Nothing(conflicts), [first, second]);
            KeySet(s.kept) == first.members && |s.kept| == |first.members|
  {
    var none := Nothing(conflicts);
    assert [first, second][..1] == [first] && [first][..0] == [];
    assert AdmitSets(pool, params, none, [first]) == AdmitSet(pool, params, none, first);
    FirstAdmitted(pool, params, conflicts, first);
    SecondRefused(pool, params, AdmitSet(pool, params, none, first), first, second);
  }

  lemma SecondRefused(pool: Pool, params: Params, one: Selection, first: Conflict, second: Conflict)
    requires second.members <= pool.Keys && one.keys == first.members && !(second.members <= first.members)
    requires CountOf(one, CONFLICTS_AND_STALE) == params.budget(CONFLICTS_AND_STALE)
    ensures AdmitSet(pool, params, one, second) == DropSet(one, second)
  {
    MissingSize(one, second);
    var k :| k in second.members && k !in first.members;
    assert k in second.members - one.keys;
  }

  lemma FirstAdmitted(pool: Pool, params: Params, conflicts: set<Conflict>, first: Conflict)
    requires Demoted(pool, conflicts) && first in conflicts && |first.members| == params.budget(CONFLICTS_AND_STALE)
    ensures var one := AdmitSet(pool, params, Nothing(conflicts), first);
            && one.keys == first.members && KeySet(one.kept) == first.members && |one.kept| == |first.members|
            && CountOf(one, CONFLICTS_AND_STALE) == |first.members|
  {
    var none := Nothing(conflicts);
    assert first.members - none.keys == first.members;
    MissingFacts(none, first);
    MissingSize(none, first);
    MembersOf(conflicts, first);
    AdmitMissing(pool, none, Missing(none, first), first.members);
  }

  lemma AdmitMissing(pool: Pool, s: Selection, ks: seq<Key>, members: set<Key>)
    requires s.kept == [] && s.keys == {} && Elements(ks, members)
    requires forall k :: k in ks ==> k in pool && pool[k].section == CONFLICTS_AND_STALE
    ensures var one := AdmitAll(pool, s, ks);
            && one.keys == members && KeySet(one.kept) == members && |one.kept| == |ks|
            && CountOf(one, CONFLICTS_AND_STALE) == CountOf(s, CONFLICTS_AND_STALE) + |ks|
  {
    AdmitAllAdds(pool, s, ks);
    assert s.kept + ks == ks && s.keys + KeySet(ks) == KeySet(ks);
  }

  lemma CapKeepsAll(pool: Pool, params: Params, s: Selection)
    requires |s.kept| <= params.maxItems
    ensures KeySet(Cap(pool, params, s).kept) == KeySet(s.kept) && Cap(pool, params, s).live == s.live
  {
    KeySetSize(s.kept);
  }

  /** A selection that is short enough is shown as it is. */
  lemma SelectedIsShown(x: Inputs)
    requires InputsOk(x) && |Selected(x).kept| <= x.params.maxItems
    requires !x.rawAllowed && (forall s :: x.bytes(s) + 4 <= x.params.maxPackBytes)
    ensures Shown(x) == KeySet(Selected(x).kept) && Composed(x).live == Selected(x).live
    ensures Fallback(x, Capped(x)) == Composed(x)
  {
    CapKeepsAll(AllItems(x), x.params, Selected(x));
    NothingAfterTheCap(x);
  }

  lemma NothingAfterTheCap(x: Inputs)
    requires InputsOk(x) && !x.rawAllowed && (forall s :: x.bytes(s) + 4 <= x.params.maxPackBytes)
    ensures Fallback(x, Capped(x)) == Capped(x) == Composed(x)
  {
    assert !TooLong(x, Capped(x));
  }

  lemma NoOthers(x: Inputs, first: Conflict, second: Conflict)
    requires InputsOk(x) && AdmissionOrder(x) == [first, second] && x.candidates.Keys <= first.members + second.members
    ensures Selected(x) == Admitted(x)
  {
    assert AdmissionOrder(x)[0] in AdmissionOrder(x) && AdmissionOrder(x)[1] in AdmissionOrder(x);
    MembersOf(x.conflicts, first);
    MembersOf(x.conflicts, second);
    assert x.candidates.Keys - Members(x.conflicts) == {};
    NoElements(Others(x));
  }
}
