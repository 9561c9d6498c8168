/**
 * What becomes of every candidate outside the conflicts: each meets exactly one fate, and budgets favour the higher
 * rank.
 */
module PackFates {
  import opened Sorting
  import opened PackModel
  import opened PackSettle
  import opened PackSelect

  /** Candidates outside the conflicts, none twice. */
  ghost predicate Loose(pool: Pool, conflicts: set<Conflict>, order: seq<Key>) {
    && (forall k :: k in order ==> k in pool && k !in Members(conflicts))
    && (forall i, j :: 0 <= i < j < |order| ==> order[i] != order[j])
  }

  lemma LoosePrefix(pool: Pool, conflicts: set<Conflict>, order: seq<Key>)
    requires Loose(pool, conflicts, order) && order != []
    ensures Loose(pool, conflicts, order[..|order| - 1]) && order[|order| - 1] !in order[..|order| - 1]
    ensures order[|order| - 1] in pool && order[|order| - 1] !in Members(conflicts)
  {
    assert order[|order| - 1] in order;
  }

  /** What the main loop keeps true. */
  ghost predicate TakeOk(pool: Pool, params: Params, conflicts: set<Conflict>, s: Selection) {
    WithinBudgets(pool, params, s) && TextsOwned(pool, conflicts, s)
  }

  lemma TakeKeeps(pool: Pool, params: Params, cites: Citations, conflicts: set<Conflict>, s: Selection, k: Key)
    requires TakeOk(pool, params, conflicts, s) && k in pool && k !in Members(conflicts)
    ensures TakeOk(pool, params, conflicts, Take(pool, params, cites, s, k))
  {
    var t := Take(pool, params, cites, s, k);
    if FateOf(pool, params, cites, s, k) == Kept {
      AdmitKeepsBudgets(pool, params, s, k);
      TextsPlaced(pool, conflicts, s, k);
    } else {
      BudgetsStay(pool, params, s, t);
      TextsSeen(pool, conflicts, s, t, k);
    }
  }

  lemma BudgetsStay(pool: Pool, params: Params, s: Selection, t: Selection)
    requires WithinBudgets(pool, params, s) && t.kept == s.kept && t.counts == s.counts && s.keys <= t.keys
    ensures WithinBudgets(pool, params, t)
  {
    forall section: Section ensures SectionOk(pool, params, t, section) {
      assert SectionOk(pool, params, s, section);
    }
  }

  lemma TextsPlaced(pool: Pool, conflicts: set<Conflict>, s: Selection, k: Key)
    requires TextsOwned(pool, conflicts, s) && k in pool && pool[k].digest !in s.digests
    ensures TextsOwned(pool, conflicts, Place(pool, s, k))
  {
    assert forall j :: j in Place(pool, s, k).kept ==> j in s.kept || j == k;
  }

  lemma TextsSeen(pool: Pool, conflicts: set<Conflict>, s: Selection, t: Selection, k: Key)
    requires TextsOwned(pool, conflicts, s) && k in pool && t.kept == s.kept
    requires t.digests == s.digests || (pool[k].digest !in s.digests && t.digests == s.digests[pool[k].digest := k])
    ensures TextsOwned(pool, conflicts, t)
  {
  }

  /** The candidates of an order that meet a fate. */
  function Fated(pool: Pool, params: Params, cites: Citations, s: Selection, order: seq<Key>, fate: Fate): (r: set<Key>)
    requires forall k :: k in order ==> k in pool
    ensures forall k :: k in r ==> k in order
  {
    if order == [] then {}
    else
      var most, last := order[..|order| - 1], order[|order| - 1];
      var before := Fated(pool, params, cites, s, most, fate);
      if FateOf(pool, params, cites, TakeAll(pool, params, cites, s, most), last) == fate then before + {last}
        else before
  }

  /** Every candidate meets exactly one fate. */
  lemma {:induction false} OneFate(pool: Pool, params: Params, cites: Citations, conflicts: set<Conflict>, s: Selection,
                                   order: seq<Key>, k: Key)
    requires Loose(pool, conflicts, order) && k in order
    ensures exists fate :: k in Fated(pool, params, cites, s, order, fate)
    ensures forall f, g ::
              k in Fated(pool, params, cites, s, order, f) && k in Fated(pool, params, cites, s, order, g) ==> f == g
  {
    var most, last := order[..|order| - 1], order[|order| - 1];
    LoosePrefix(pool, conflicts, order);
    var fate := FateOf(pool, params, cites, TakeAll(pool, params, cites, s, most), last);
    if k == last {
      assert k in Fated(pool, params, cites, s, order, fate);
    } else {
      OneFate(pool, params, cites, conflicts, s, most, k);
      var f :| k in Fated(pool, params, cites, s, most, f);
      assert k in Fated(pool, params, cites, s, order, f);
    }
  }

  function Bit(b: bool): nat { if b then 1 else 0 }

  /** The diagnostics after so many duplicates, repeated texts, cited episodes and candidates over budget. */
  function Sum(d: Diagnostics, duplicates: nat, texts: nat, cited: nat, over: nat): Diagnostics {
    d.(deduplicated := d.deduplicated + duplicates + texts, citedEpisode := d.citedEpisode + cited,
       sectionBudget := d.sectionBudget + over)
  }

  function OneFateMore(d: Diagnostics, fate: Fate): Diagnostics {
    Sum(d, Bit(fate == Duplicate), Bit(fate == SameText), Bit(fate == Cited), Bit(fate == OverBudget))
  }

  lemma TakeCounts(pool: Pool, params: Params, cites: Citations, s: Selection, k: Key)
    requires k in pool
    ensures var t, fate := Take(pool, params, cites, s, k), FateOf(pool, params, cites, s, k);
            && t.kept == s.kept + (if fate == Kept then [k] else [])
            && t.diag == OneFateMore(s.diag, fate)
            && t.live == s.live
  {
  }

  ghost function FateCount(pool: Pool, params: Params, cites: Citations, s: Selection, order: seq<Key>, fate: Fate): nat
    requires forall k :: k in order ==> k in pool
  {
    |Fated(pool, params, cites, s, order, fate)|
  }

  ghost function CountedFates(pool: Pool, params: Params, cites: Citations, s: Selection, order: seq<Key>): Diagnostics
    requires forall k :: k in order ==> k in pool
  {
    Sum(s.diag, FateCount(pool, params, cites, s, order, Duplicate), FateCount(pool, params, cites, s, order, SameText),
        FateCount(pool, params, cites, s, order, Cited), FateCount(pool, params, cites, s, order, OverBudget))
  }

  lemma FatedSize(pool: Pool, params: Params, cites: Citations, conflicts: set<Conflict>, s: Selection, order: seq<Key>,
                  fate: Fate)
    requires Loose(pool, conflicts, order) && order != []
    ensures var most := order[..|order| - 1];
            FateCount(pool, params, cites, s, order, fate) == FateCount(pool, params, cites, s, most, fate)
              + Bit(FateOf(pool, params, cites, TakeAll(pool, params, cites, s, most), order[|order| - 1]) == fate)
  {
    LoosePrefix(pool, conflicts, order);
  }

  lemma CountsGrow(pool: Pool, params: Params, cites: Citations, conflicts: set<Conflict>, s: Selection,
                   order: seq<Key>)
    requires Loose(pool, conflicts, order) && order != []
    ensures var most := order[..|order| - 1];
            CountedFates(pool, params, cites, s, order) ==
              OneFateMore(CountedFates(pool, params, cites, s, most),
                          FateOf(pool, params, cites, TakeAll(pool, params, cites, s, most), order[|order| - 1]))
  {
    FatedSize(pool, params, cites, conflicts, s, order, Duplicate);
    FatedSize(pool, params, cites, conflicts, s, order, SameText);
    FatedSize(pool, params, cites, conflicts, s, order, Cited);
    FatedSize(pool, params, cites, conflicts, s, order, OverBudget);
  }

  /** The diagnostics count the fates, and no conflict set is touched. */
  lemma {:induction false} FatesCounted(pool: Pool, params: Params, cites: Citations, conflicts: set<Conflict>,
                                        s: Selection, order: seq<Key>)
    requires Loose(pool, conflicts, order)
    ensures TakeAll(pool, params, cites, s, order).diag == CountedFates(pool, params, cites, s, order)
    ensures TakeAll(pool, params, cites, s, order).live == s.live
  {
    if order != [] {
      var most := order[..|order| - 1];
      LoosePrefix(pool, conflicts, order);
      FatesCounted(pool, params, cites, conflicts, s, most);
      TakeCounts(pool, params, cites, TakeAll(pool, params, cites, s, most), order[|order| - 1]);
      CountsGrow(pool, params, cites, conflicts, s, order);
    }
  }

  /** The items kept by the main loop are those fated to be kept, in order of rank. */
  lemma {:induction false} KeptAreFated(pool: Pool, params: Params, cites: Citations, conflicts: set<Conflict>,
                                        s: Selection, order: seq<Key>)
    requires Loose(pool, conflicts, order)
    ensures TakeAll(pool, params, cites, s, order).kept ==
              s.kept + Keep(order, Fated(pool, params, cites, s, order, Kept))
  {
    if order != [] {
      var most, last := order[..|order| - 1], order[|order| - 1];
      LoosePrefix(pool, conflicts, order);
      KeptAreFated(pool, params, cites, conflicts, s, most);
      TakeCounts(pool, params, cites, TakeAll(pool, params, cites, s, most), last);
      KeepSame(most, Fated(pool, params, cites, s, most, Kept), Fated(pool, params, cites, s, order, Kept));
    }
  }

  lemma {:induction false} KeepSame(s: seq<Key>, a: set<Key>, b: set<Key>)
    requires forall k :: k in s ==> (k in a <==> k in b)
    ensures Keep(s, a) == Keep(s, b)
  {
    if s != [] {
      assert s[|s| - 1] in s;
      KeepSame(s[..|s| - 1], a, b);
    }
  }

  lemma {:induction false} TakeAllKeeps(pool: Pool, params: Params, cites: Citations, conflicts: set<Conflict>,
                                        s: Selection, order: seq<Key>)
    requires Loose(pool, conflicts, order) && TakeOk(pool, params, conflicts, s)
    ensures TakeOk(pool, params, conflicts, TakeAll(pool, params, cites, s, order))
  {
    if order != [] {
      var most := order[..|order| - 1];
      LoosePrefix(pool, conflicts, order);
      TakeAllKeeps(pool, params, cites, conflicts, s, most);
      TakeKeeps(pool, params, cites, conflicts, TakeAll(pool, params, cites, s, most), order[|order| - 1]);
    }
  }

  // ---------------------------------------------------------------- a full section

  predicate Full(params: Params, s: Selection, section: Section) { CountOf(s, section) >= params.budget(section) }

  lemma FullStays(pool: Pool, params: Params, cites: Citations, s: Selection, k: Key, section: Section)
    requires k in pool && Full(params, s, section)
    ensures Full(params, Take(pool, params, cites, s, k), section)
    ensures FateOf(pool, params, cites, s, k) == Kept ==> pool[k].section != section
  {
  }

  /** After a section is full, nothing more of it is kept. */
  lemma {:induction false} NothingMore(pool: Pool, params: Params, cites: Citations, conflicts: set<Conflict>,
                                       s: Selection, order: seq<Key>, i: nat, section: Section)
    requires Loose(pool, conflicts, order) && i <= |order|
    requires (forall k :: k in order[..i] ==> k in pool)
    requires Full(params, TakeAll(pool, params, cites, s, order[..i]), section)
    ensures Full(params, TakeAll(pool, params, cites, s, order), section)
    ensures forall k :: k in Fated(pool, params, cites, s, order, Kept) && pool[k].section == section ==>
                k in order[..i]
  {
    if i == |order| {
      assert order[..i] == order;
    } else {
      var most := order[..|order| - 1];
      LoosePrefix(pool, conflicts, order);
      assert most[..i] == order[..i];
      NothingMore(pool, params, cites, conflicts, s, most, i, section);
      FullStays(pool, params, cites, TakeAll(pool, params, cites, s, most), order[|order| - 1], section);
    }
  }

  /** A candidate over its section's budget ranks below everything of its section that the main loop keeps. */
  lemma OverBudgetRanksBelow(pool: Pool, params: Params, cites: Citations, conflicts: set<Conflict>, s: Selection,
                             order: seq<Key>, k: Key, other: Key)
    requires Loose(pool, conflicts, order) && SortedBy(Ranking(pool), order)
    requires k in Fated(pool, params, cites, s, order, OverBudget)
    requires other in Fated(pool, params, cites, s, order, Kept)
    requires pool[other].section == pool[k].section
    ensures Ranking(pool)(other, k)
  {
    var i := TurnOf(pool, params, cites, s, order, k, OverBudget);
    NothingMore(pool, params, cites, conflicts, s, order, i, pool[k].section);
  }

  lemma PrefixElements<T>(s: seq<T>)
    requires s != []
    ensures forall e :: e in s[..|s| - 1] ==> e in s
  {
  }

  lemma PrefixOfPrefix<T>(s: seq<T>, i: nat)
    requires i < |s|
    ensures s[..|s| - 1][..i] == s[..i]
  {
  }

  /** The turn at which a candidate met its fate. */
  lemma {:induction false} TurnOf(pool: Pool, params: Params, cites: Citations, s: Selection, order: seq<Key>, k: Key,
                                  fate: Fate)
    returns (i: nat)
    requires (forall x :: x in order ==> x in pool) && k in Fated(pool, params, cites, s, order, fate)
    ensures i < |order| && order[i] == k
    ensures FateOf(pool, params, cites, TakeAll(pool, params, cites, s, order[..i]), k) == fate
  {
    var most := order[..|order| - 1];
    PrefixElements(order);
    if k in Fated(pool, params, cites, s, most, fate) {
      i := TurnOf(pool, params, cites, s, most, k, fate);
      PrefixOfPrefix(order, i);
    } else {
      i := |order| - 1;
    }
  }
}
