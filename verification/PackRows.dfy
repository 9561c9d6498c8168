/** Which raw rows an experience pack falls back on, told by their scores, groups and texts. */
module PackRows {
  import opened Sorting
  import opened PackModel
  import opened PackSettle
  import opened PackSelect
  import opened PackFates
  import opened PackCompose
  import opened PackGuarantees
  import opened PackOrder
  import opened PackTexts
  import opened Wrappers

  // ---------------------------------------------------------------- the order of rows

  /** The higher score first, and of equal scores the smaller key. */
  ghost predicate RowBefore(rows: Rows, a: Key, b: Key) {
    && a in rows && b in rows
    && (rows[a].score > rows[b].score || (rows[a].score == rows[b].score && exists n :: Precedes(a, b, n)))
  }

  lemma RowRankingMeans(rows: Rows, a: Key, b: Key)
    requires a in rows && b in rows
    ensures RowRanking(rows)(a, b) <==> RowBefore(rows, a, b)
  {
    StrLessMeans(a, b);
  }

  // ---------------------------------------------------------------- picking

  /** The rows picked from a prefix are those picked in the end that lie in it. */
  lemma {:induction false} PickedBefore(rows: Rows, order: seq<Key>, budget: nat, i: nat)
    requires (forall k :: k in order ==> k in rows) && i <= |order| && (forall k :: k in order[..i] ==> k in rows)
    requires forall a, b :: 0 <= a < b < |order| ==> order[a] != order[b]
    ensures PickRows(rows, order[..i], budget) == Keep(PickRows(rows, order, budget), KeySet(order[..i]))
  {
    if i == |order| {
      assert order[..i] == order;
      PickedMakeItems(rows, order, budget);
      KeepAll(PickRows(rows, order, budget), KeySet(order));
    } else {
      var most, last := order[..|order| - 1], order[|order| - 1];
      PrefixElements(order);
      PrefixOfPrefix(order, i);
      PickedBefore(rows, most, budget, i);
      assert forall a :: 0 <= a < i ==> order[a] != last;
      assert last !in order[..i];
      var before := PickRows(rows, most, budget);
      assert (before + [last])[..|before|] == before;
    }
  }

  function AtLeastOne(budget: nat): nat { if budget == 0 then 1 else budget }

  lemma {:induction false} PickedOnce(rows: Rows, order: seq<Key>, budget: nat)
    requires forall k :: k in order ==> k in rows
    requires forall a, b :: 0 <= a < b < |order| ==> order[a] != order[b]
    ensures forall a, b :: 0 <= a < b < |PickRows(rows, order, budget)| ==>
                             PickRows(rows, order, budget)[a] != PickRows(rows, order, budget)[b]
    ensures |KeySet(PickRows(rows, order, budget))| == |PickRows(rows, order, budget)|
  {
    if order != [] {
      var most, last := order[..|order| - 1], order[|order| - 1];
      PrefixElements(order);
      PickedOnce(rows, most, budget);
      PickedMakeItems(rows, most, budget);
      assert last !in most;
      var before := PickRows(rows, most, budget);
      assert KeySet(before + [last]) == KeySet(before) + {last};
    }
  }

  /** A row is picked iff at its turn there is room, it makes an item, and fewer than two of its group are picked. */
  lemma {:induction false} PickedAtTurn(rows: Rows, order: seq<Key>, budget: nat, i: nat)
    requires (forall k :: k in order ==> k in rows) && i < |order|
    requires forall a, b :: 0 <= a < b < |order| ==> order[a] != order[b]
    ensures forall k :: k in order[..i] ==> k in rows
    ensures order[i] in rows
    ensures var before := KeySet(PickRows(rows, order[..i], budget));
            order[i] in PickRows(rows, order, budget) <==>
              && |before| < AtLeastOne(budget) && rows[order[i]].item.Some?
              && |set j | j in before && OfSameGroup(rows, j, order[i])| < 2
  {
    PrefixFound(rows, order, i);
    PrefixFound(rows, order, i + 1);
    PickedBefore(rows, order, budget, i + 1);
    PickedOnce(rows, order[..i], budget);
    assert order[..i + 1][..i] == order[..i] && order[..i + 1][i] == order[i] && order[i] in order[..i + 1];
    assert order[i] in PickRows(rows, order, budget) <==> order[i] in PickRows(rows, order[..i + 1], budget);
    PickedMakeItems(rows, order[..i], budget);
    assert order[i] !in order[..i];
    var before := PickRows(rows, order[..i], budget);
    if rows[order[i]].item.Some? {
      assert OfGroup(rows, before, rows[order[i]].item.value.group) ==
             set j | j in KeySet(before) && OfSameGroup(rows, j, order[i]);
    }
  }

  lemma PrefixFound(rows: Rows, order: seq<Key>, i: nat)
    requires (forall k :: k in order ==> k in rows) && i <= |order|
    ensures forall k :: k in order[..i] ==> k in rows
    ensures i < |order| ==> order[i] in rows
  {
    if i < |order| {
      assert order[i] in order;
    }
  }

  predicate OfSameGroup(rows: Rows, j: Key, k: Key) {
    && j in rows && k in rows && rows[j].item.Some? && rows[k].item.Some?
    && rows[j].item.value.group == rows[k].item.value.group
  }

  /** The picked rows that come before a row. */
  ghost function PickedAhead(x: Inputs, k: Key): set<Key>
    requires x.rows.Some?
  {
    set j | j in Picked(x) && RowBefore(x.rows.value, j, k)
  }

  /**
   * A row is picked exactly if it makes an item, the rows picked before it leave room, and fewer than two of them are
   * of its group. The first that makes an item is picked even without room.
   */
  lemma PickedExactlyWhen(x: Inputs, k: Key)
    requires x.rows.Some? && k in x.rows.value
    ensures k in Picked(x) <==>
              && x.rows.value[k].item.Some?
              && |PickedAhead(x, k)| < AtLeastOne(x.params.budget(7))
              && |set j | j in PickedAhead(x, k) && OfSameGroup(x.rows.value, j, k)| < 2
  {
    var rows := x.rows.value;
    RowRankingStrictTotal(rows);
    var order := Arranged(RowRanking(rows), rows.Keys);
    DistinctWhenSorted(RowRanking(rows), order);
    assert k in order;
    var i :| 0 <= i < |order| && order[i] == k;
    PickedAtTurn(rows, order, x.params.budget(RAW_EVIDENCE), i);
    AheadIs(x, order, i);
  }

  lemma AheadIs(x: Inputs, order: seq<Key>, i: nat)
    requires x.rows.Some? && SortedBy(RowRanking(x.rows.value), order) && Elements(order, x.rows.value.Keys)
    requires Picked(x) == PickRows(x.rows.value, order, x.params.budget(RAW_EVIDENCE))
    requires i < |order| && forall k :: k in order[..i] ==> k in x.rows.value
    ensures PickedAhead(x, order[i]) == KeySet(PickRows(x.rows.value, order[..i], x.params.budget(RAW_EVIDENCE)))
  {
    var rows := x.rows.value;
    RowRankingStrictTotal(rows);
    DistinctWhenSorted(RowRanking(rows), order);
    PickedBefore(rows, order, x.params.budget(RAW_EVIDENCE), i);
    PickedMakeItems(rows, order, x.params.budget(RAW_EVIDENCE));
    forall j | j in Picked(x) ensures j in order[..i] <==> RowBefore(rows, j, order[i]) {
      RowEarlier(rows, order, i, j);
    }
  }

  lemma RowEarlier(rows: Rows, order: seq<Key>, i: nat, j: Key)
    requires SortedBy(RowRanking(rows), order) && Elements(order, rows.Keys) && i < |order| && j in order
    ensures j in order[..i] <==> RowBefore(rows, j, order[i])
  {
    RowRankingStrictTotal(rows);
    var a :| 0 <= a < |order| && order[a] == j;
    assert order[i] in order;
    RowRankingMeans(rows, j, order[i]);
    if a < i {
      assert order[..i][a] == j;
    }
  }

  lemma {:induction false} PickedSorted(rows: Rows, order: seq<Key>, budget: nat)
    requires (forall k :: k in order ==> k in rows) && SortedBy(RowRanking(rows), order)
    ensures SortedBy(RowRanking(rows), PickRows(rows, order, budget))
  {
    if order != [] {
      var most, last := order[..|order| - 1], order[|order| - 1];
      PickedSorted(rows, most, budget);
      PickedMakeItems(rows, most, budget);
      var before := PickRows(rows, most, budget);
      forall a | 0 <= a < |before| ensures RowRanking(rows)(before[a], last) {
        assert before[a] in before && before[a] in most;
      }
    }
  }

  lemma PickedInOrder(x: Inputs, a: nat, b: nat)
    requires x.rows.Some? && a < b < |Picked(x)|
    ensures RowBefore(x.rows.value, Picked(x)[a], Picked(x)[b])
  {
    var rows := x.rows.value;
    RowRankingStrictTotal(rows);
    PickedSorted(rows, Arranged(RowRanking(rows), rows.Keys), x.params.budget(RAW_EVIDENCE));
    assert Picked(x)[a] in Picked(x) && Picked(x)[b] in Picked(x);
    RowRankingMeans(rows, Picked(x)[a], Picked(x)[b]);
  }

  // ---------------------------------------------------------------- adding

  /** Nothing seen before has the text of the i-th row, and no earlier row has it. */
  ghost predicate NewText(pool: Pool, s: Selection, ks: seq<Key>, i: int)
    requires 0 <= i < |ks| && forall k :: k in ks ==> k in pool
  {
    assert forall j :: 0 <= j < |ks| ==> ks[j] in ks;
    pool[ks[i]].digest !in s.digests && forall j :: 0 <= j < i ==> pool[ks[j]].digest != pool[ks[i]].digest
  }

  ghost function NewTexts(pool: Pool, s: Selection, ks: seq<Key>): set<Key>
    requires forall k :: k in ks ==> k in pool
  {
    set i | 0 <= i < |ks| && NewText(pool, s, ks, i) :: ks[i]
  }

  lemma {:induction false} RowsAdded(pool: Pool, s: Selection, ks: seq<Key>)
    requires (forall k :: k in ks ==> k in pool && k !in s.keys) && forall a, b :: 0 <= a < b < |ks| ==> ks[a] != ks[b]
    ensures AddRows(pool, s, ks).kept == s.kept + Keep(ks, NewTexts(pool, s, ks))
    ensures forall d :: d in AddRows(pool, s, ks).digests <==>
                        d in s.digests || exists k :: k in ks && pool[k].digest == d
    ensures AddRows(pool, s, ks).keys <= s.keys + KeySet(ks)
  {
    if ks != [] {
      var most, last := ks[..|ks| - 1], ks[|ks| - 1];
      LastRow(ks);
      RowsAdded(pool, s, most);
      var t := AddRows(pool, s, most);
      assert last !in most && last !in KeySet(most);
      NewTextsMore(pool, s, ks, most, last);
      KeepSame(most, NewTexts(pool, s, most), NewTexts(pool, s, ks));
      assert last in NewTexts(pool, s, ks) <==> pool[last].digest !in t.digests;
    }
  }

  lemma LastRow(ks: seq<Key>)
    requires ks != []
    ensures forall k :: k in ks <==> k in ks[..|ks| - 1] || k == ks[|ks| - 1]
    ensures ks == ks[..|ks| - 1] + [ks[|ks| - 1]]
  {
    assert ks == ks[..|ks| - 1] + [ks[|ks| - 1]];
  }

  lemma NewTextsMore(pool: Pool, s: Selection, ks: seq<Key>, most: seq<Key>, last: Key)
    requires (forall k :: k in ks ==> k in pool) && (forall k :: k in most ==> k in pool) && ks == most + [last]
    requires last in pool && last !in most
    ensures forall k :: k in most ==> (k in NewTexts(pool, s, most) <==> k in NewTexts(pool, s, ks))
    ensures last in NewTexts(pool, s, ks) <==>
              pool[last].digest !in s.digests && forall k :: k in most ==> pool[k].digest != pool[last].digest
  {
    assert forall i :: 0 <= i < |most| ==> ks[i] == most[i] && ks[i] in most;
    assert forall i :: 0 <= i < |most| ==> (NewText(pool, s, most, i) <==> NewText(pool, s, ks, i));
    assert ks[|most|] == last;
    if last in NewTexts(pool, s, ks) {
      var i :| 0 <= i < |ks| && NewText(pool, s, ks, i) && ks[i] == last;
      assert i == |most|;
    }
    if pool[last].digest !in s.digests && forall k :: k in most ==> pool[k].digest != pool[last].digest {
      assert NewText(pool, s, ks, |most|);
    }
    forall k | k in most && k in NewTexts(pool, s, ks) ensures k in NewTexts(pool, s, most) {
      var i :| 0 <= i < |ks| && NewText(pool, s, ks, i) && ks[i] == k;
      assert i < |most|;
    }
  }

  // ---------------------------------------------------------------- the fallback of a composition

  /** The members of admitted conflicts, and the candidates that were kept or had no room: all whose text was noted. */
  ghost function SeenAtAll(x: Inputs): set<Key>
    requires InputsOk(x)
  {
    KeySet(Admitted(x).kept) + FatedIn(x, Kept) + FatedIn(x, OverBudget)
  }

  /** Picked rows that say something new: neither a candidate seen nor a row picked before has their text. */
  ghost predicate SaysSomethingNew(x: Inputs, k: Key)
    requires InputsOk(x) && x.rows.Some?
  {
    && k in RawItems(x.rows.value)
    && (forall j :: j in SeenAtAll(x) && j in x.candidates ==>
          x.candidates[j].digest != x.rows.value[k].item.value.digest)
    && (forall j :: j in PickedAhead(x, k) && j in RawItems(x.rows.value) ==>
          x.rows.value[j].item.value.digest != x.rows.value[k].item.value.digest)
  }

  ghost function NewRows(x: Inputs): set<Key>
    requires InputsOk(x) && x.rows.Some?
  {
    set k | k in Picked(x) && SaysSomethingNew(x, k)
  }

  lemma SelectedSeen(x: Inputs)
    requires InputsOk(x)
    ensures Capped(x).keys == SeenAtAll(x) && SeenAtAll(x) <= x.candidates.Keys
    ensures forall d :: d in Capped(x).digests <==>
                        exists j :: j in SeenAtAll(x) && j in x.candidates && x.candidates[j].digest == d
  {
    OthersLoose(x);
    AdmittedFacts(x);
    AdmittedNoticed(x);
    KeptWithin(x.candidates, x.params, Admitted(x));
    SelectedFacts(x);
    CapFacts(AllItems(x), x.conflicts, x.params, Selected(x));
    SeenInLoop(x);
  }

  lemma SeenInLoop(x: Inputs)
    requires InputsOk(x) && Loose(x.candidates, x.conflicts, Others(x)) && Noticed(x.candidates, Admitted(x), {})
    ensures Selected(x).keys == SeenAtAll(x)
    ensures forall d :: d in Selected(x).digests <==>
                        exists j :: j in Selected(x).keys && j in x.candidates && x.candidates[j].digest == d
  {
    LoopNotices(x.candidates, x.params, x.cites, Admitted(x), Others(x));
    NoticedTexts(x.candidates, Selected(x), FatedIn(x, OverBudget));
    KeptAreFated(x.candidates, x.params, x.cites, x.conflicts, Admitted(x), Others(x));
    KeptKeys(Admitted(x).kept, Others(x), FatedIn(x, Kept));
  }

  lemma NoticedTexts(pool: Pool, s: Selection, over: set<Key>)
    requires Noticed(pool, s, over)
    ensures s.keys == KeySet(s.kept) + over
    ensures forall d :: d in s.digests <==> exists j :: j in s.keys && j in pool && pool[j].digest == d
  {
  }

  lemma KeptKeys(kept: seq<Key>, order: seq<Key>, fated: set<Key>)
    requires forall k :: k in fated ==> k in order
    ensures KeySet(kept + Keep(order, fated)) == KeySet(kept) + fated
  {
  }

  lemma RawItem(x: Inputs, k: Key)
    requires InputsOk(x) && x.rows.Some? && k in RawItems(x.rows.value)
    ensures k in AllItems(x) && AllItems(x)[k] == x.rows.value[k].item.value && k !in x.candidates
  {
  }

  lemma PickedNew(x: Inputs, i: nat)
    requires InputsOk(x) && x.rows.Some? && i < |Picked(x)| && forall k :: k in Picked(x) ==> k in AllItems(x)
    ensures NewText(AllItems(x), Capped(x), Picked(x), i) <==> SaysSomethingNew(x, Picked(x)[i])
  {
    assert Picked(x)[i] in Picked(x);
    RawItem(x, Picked(x)[i]);
    NewToCandidates(x, Picked(x)[i]);
    NewToRows(x, i);
  }

  lemma NewToCandidates(x: Inputs, k: Key)
    requires InputsOk(x) && x.rows.Some? && k in RawItems(x.rows.value)
    ensures x.rows.value[k].item.value.digest !in Capped(x).digests <==>
            forall j :: j in SeenAtAll(x) && j in x.candidates ==>
              x.candidates[j].digest != x.rows.value[k].item.value.digest
  {
    SelectedSeen(x);
  }

  lemma NewToRows(x: Inputs, i: nat)
    requires InputsOk(x) && x.rows.Some? && i < |Picked(x)| && forall k :: k in Picked(x) ==> k in AllItems(x)
    ensures forall a :: 0 <= a < |Picked(x)| ==> Picked(x)[a] in AllItems(x)
    ensures Picked(x)[i] in RawItems(x.rows.value)
    ensures (forall a :: 0 <= a < i ==> AllItems(x)[Picked(x)[a]].digest != AllItems(x)[Picked(x)[i]].digest) <==>
            forall j :: j in PickedAhead(x, Picked(x)[i]) && j in RawItems(x.rows.value) ==>
              x.rows.value[j].item.value.digest != x.rows.value[Picked(x)[i]].item.value.digest
  {
    var ks := Picked(x);
    forall a | 0 <= a < |ks|
      ensures ks[a] in RawItems(x.rows.value) && ks[a] in AllItems(x)
      ensures AllItems(x)[ks[a]] == x.rows.value[ks[a]].item.value
    {
      assert ks[a] in ks;
      RawItem(x, ks[a]);
    }
    forall a | 0 <= a < i ensures ks[a] in PickedAhead(x, ks[i]) {
      assert ks[a] in ks;
      AheadInPicked(x, i, ks[a]);
    }
    forall j | j in PickedAhead(x, ks[i]) ensures exists a :: 0 <= a < i && ks[a] == j {
      AheadInPicked(x, i, j);
    }
  }

  lemma AheadInPicked(x: Inputs, i: nat, j: Key)
    requires x.rows.Some? && i < |Picked(x)| && j in Picked(x)
    ensures j in PickedAhead(x, Picked(x)[i]) <==> exists a :: 0 <= a < i && Picked(x)[a] == j
  {
    var b :| 0 <= b < |Picked(x)| && Picked(x)[b] == j;
    RowsTotal(x.rows.value);
    BeforeInPicked(x, b, i);
    if a :| 0 <= a < i && Picked(x)[a] == j {
      BeforeInPicked(x, a, i);
    }
  }

  lemma BeforeInPicked(x: Inputs, b: nat, i: nat)
    requires x.rows.Some? && i < |Picked(x)| && b < |Picked(x)|
    ensures RowBefore(x.rows.value, Picked(x)[b], Picked(x)[i]) <==> b < i
  {
    RowsTotal(x.rows.value);
    if b < i {
      PickedInOrder(x, b, i);
    } else if b > i {
      PickedInOrder(x, i, b);
    }
  }

  lemma RowsTotal(rows: Rows)
    ensures forall a, b :: !(RowBefore(rows, a, b) && RowBefore(rows, b, a))
  {
    RowRankingStrictTotal(rows);
    forall a, b ensures !(RowBefore(rows, a, b) && RowBefore(rows, b, a)) {
      if a in rows && b in rows {
        RowRankingMeans(rows, a, b);
        RowRankingMeans(rows, b, a);
      }
    }
  }

  /** The fallback adds exactly the picked rows that say something new, in their order. */
  lemma FallbackAdds(x: Inputs)
    requires InputsOk(x) && x.rows.Some?
    ensures forall k :: k in Picked(x) ==> k in AllItems(x)
    ensures AddRows(AllItems(x), Capped(x), Picked(x)).kept == Capped(x).kept + Keep(Picked(x), NewRows(x))
  {
    PickedFresh(x);
    PickedDiffer(x);
    RowsAdded(AllItems(x), Capped(x), Picked(x));
    forall k | k in Picked(x) ensures k in NewTexts(AllItems(x), Capped(x), Picked(x)) <==> k in NewRows(x) {
      NewTextsAre(x, k);
    }
    KeepSame(Picked(x), NewTexts(AllItems(x), Capped(x), Picked(x)), NewRows(x));
  }

  lemma PickedFresh(x: Inputs)
    requires InputsOk(x) && x.rows.Some?
    ensures forall k :: k in Picked(x) ==> k in AllItems(x) && k !in Capped(x).keys
  {
    SelectedSeen(x);
    forall k | k in Picked(x) ensures k in AllItems(x) && k !in Capped(x).keys {
      RawItem(x, k);
    }
  }

  lemma NewTextsAre(x: Inputs, k: Key)
    requires InputsOk(x) && x.rows.Some? && k in Picked(x) && forall k :: k in Picked(x) ==> k in AllItems(x)
    ensures k in NewTexts(AllItems(x), Capped(x), Picked(x)) <==> k in NewRows(x)
  {
    var i :| 0 <= i < |Picked(x)| && Picked(x)[i] == k;
    PickedNew(x, i);
    if NewText(AllItems(x), Capped(x), Picked(x), i) {
      assert k in NewTexts(AllItems(x), Capped(x), Picked(x));
    }
    if k in NewTexts(AllItems(x), Capped(x), Picked(x)) {
      var a :| 0 <= a < |Picked(x)| && NewText(AllItems(x), Capped(x), Picked(x), a) && Picked(x)[a] == k;
      PickedNew(x, a);
    }
  }

  lemma PickedDiffer(x: Inputs)
    requires x.rows.Some?
    ensures forall a, b :: 0 <= a < b < |Picked(x)| ==> Picked(x)[a] != Picked(x)[b]
  {
    RowsTotal(x.rows.value);
    forall a, b | 0 <= a < b < |Picked(x)| ensures Picked(x)[a] != Picked(x)[b] {
      PickedInOrder(x, a, b);
    }
  }

  /** A current decision, an accepted procedure or a validated lesson is left. */
  ghost predicate PrimaryLeft(x: Inputs)
    requires InputsOk(x)
  {
    HoldsPrimary(x, Capped(x).kept)
  }

  predicate HoldsPrimary(x: Inputs, kept: seq<Key>) {
    exists k :: k in kept && k in x.candidates &&
                (x.candidates[k].section == 0 || x.candidates[k].section == 1 || x.candidates[k].section == 2)
  }

  lemma NeedsRawFor(x: Inputs, s: Selection)
    ensures NeedsRaw(x, s) <==> x.rawAllowed && !HoldsPrimary(x, s.kept)
  {
  }

  lemma NeedsRawMeans(x: Inputs)
    requires InputsOk(x)
    ensures NeedsRaw(x, Capped(x)) <==> x.rawAllowed && !PrimaryLeft(x)
  {
    NeedsRawFor(x, Capped(x));
  }

  lemma RowsUsed(x: Inputs)
    requires InputsOk(x) && x.rows.Some?
    ensures forall k :: k in Picked(x) ==> k in AllItems(x)
    ensures |AddRows(AllItems(x), Capped(x), Picked(x)).kept| > |Capped(x).kept| <==> NewRows(x) != {}
  {
    FallbackAdds(x);
    SomeKept(Picked(x), NewRows(x));
  }

  /** When raw evidence is looked for, and what is reported. */
  lemma RawStatusMeans(x: Inputs)
    requires InputsOk(x)
    ensures match RawStatusOf(x, Capped(x))
            case Disabled => !x.rawAllowed
            case NotNeeded => x.rawAllowed && PrimaryLeft(x)
            case Failed => x.rawAllowed && !PrimaryLeft(x) && x.rows.None?
            case Used => x.rawAllowed && !PrimaryLeft(x) && x.rows.Some? && NewRows(x) != {}
            case NoResults => x.rawAllowed && !PrimaryLeft(x) && x.rows.Some? && NewRows(x) == {}
  {
    NeedsRawMeans(x);
    if x.rows.Some? {
      RowsUsed(x);
    }
  }

  lemma SomeKept(ks: seq<Key>, keys: set<Key>)
    requires forall k :: k in keys ==> k in ks
    ensures |Keep(ks, keys)| > 0 <==> keys != {}
  {
    if k :| k in keys {
      assert k in Keep(ks, keys);
    }
    if |Keep(ks, keys)| > 0 {
      assert Keep(ks, keys)[0] in Keep(ks, keys);
    }
  }
}
