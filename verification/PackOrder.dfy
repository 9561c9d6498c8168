/** The order of an experience pack, told by the fields of its items. */
module PackOrder {
  import opened Order
  import opened PackModel
  import opened PackSelect
  import opened PackCompose
  import opened PackGuarantees

  // ---------------------------------------------------------------- text order

  /**
   * a comes before b in a dictionary: it ends where b goes on, or at the first difference it has the smaller letter.
   */
  ghost predicate Precedes(a: string, b: string, n: nat) {
    && n <= |a| && n < |b| && a[..n] == b[..n]
    && (n == |a| || a[n] < b[n])
  }

  lemma {:induction false} StrLessMeans(a: string, b: string)
    ensures StrLess(a, b) <==> exists n :: Precedes(a, b, n)
  {
    if a == [] || b == [] || a[0] != b[0] {
      FirstDiffers(a, b);
    } else {
      StrLessMeans(a[1..], b[1..]);
      if StrLess(a, b) {
        var n: nat :| Precedes(a[1..], b[1..], n);
        assert a[..n + 1] == [a[0]] + a[1..][..n] && b[..n + 1] == [b[0]] + b[1..][..n];
        assert Precedes(a, b, n + 1);
      }
      if n: nat :| Precedes(a, b, n) {
        assert n > 0;
        assert a[1..][..n - 1] == a[..n][1..] && b[1..][..n - 1] == b[..n][1..];
        assert Precedes(a[1..], b[1..], n - 1);
      }
    }
  }

  lemma FirstDiffers(a: string, b: string)
    requires a == [] || b == [] || a[0] != b[0]
    ensures StrLess(a, b) <==> exists n :: Precedes(a, b, n)
  {
    if StrLess(a, b) {
      assert Precedes(a, b, 0);
    }
    if n: nat :| Precedes(a, b, n) {
      SameStart(a, b, n);
    }
  }

  lemma SameStart(a: string, b: string, n: nat)
    requires Precedes(a, b, n)
    ensures n > 0 ==> a != [] && a[0] == b[0]
  {
    if n > 0 {
      assert a[..n][0] == b[..n][0];
    }
  }

  // ---------------------------------------------------------------- items

  /** In a conflict, neither a match nor relevance nor recency speaks for an item. */
  predicate Neutral(i: Item) { "conflict" in i.flags }

  predicate Matches(i: Item) { i.matched && !Neutral(i) }

  function Relevance(i: Item): real { if Neutral(i) then 0.0 else i.fusion }

  function Recency(i: Item): int { if Neutral(i) then 0 else i.recency }

  /**
   * Earlier section, then lower tier, then narrower scope, then the one that matches, then the more relevant, then the
   * more recent, then the smaller key.
   */
  ghost predicate Better(pool: Pool, a: Key, b: Key) {
    && a in pool && b in pool
    && var i, j := pool[a], pool[b];
       || i.section < j.section
       || (i.section == j.section && i.tier < j.tier)
       || (i.section == j.section && i.tier == j.tier && i.scopeRank < j.scopeRank)
       || (i.section == j.section && i.tier == j.tier && i.scopeRank == j.scopeRank && BetterFit(i, a, j, b))
  }

  ghost predicate BetterFit(i: Item, a: Key, j: Item, b: Key) {
    || (Matches(i) && !Matches(j))
    || (Matches(i) == Matches(j) && Relevance(i) > Relevance(j))
    || (Matches(i) == Matches(j) && Relevance(i) == Relevance(j) && Recency(i) > Recency(j))
    || (Matches(i) == Matches(j) && Relevance(i) == Relevance(j) && Recency(i) == Recency(j) &&
        exists n :: Precedes(a, b, n))
  }

  lemma RankingMeans(pool: Pool, a: Key, b: Key)
    requires a in pool && b in pool
    ensures Ranking(pool)(a, b) <==> Better(pool, a, b)
  {
    StrLessMeans(a, b);
    if pool[a].section == pool[b].section && pool[a].tier == pool[b].tier && pool[a].scopeRank == pool[b].scopeRank {
      FitMeans(pool, a, b);
    }
  }

  lemma FitMeans(pool: Pool, a: Key, b: Key)
    requires a in pool && b in pool
    requires StrLess(a, b) <==> exists n :: Precedes(a, b, n)
    requires pool[a].section == pool[b].section && pool[a].tier == pool[b].tier
    requires pool[a].scopeRank == pool[b].scopeRank
    ensures Above(RankOf(pool, a), RankOf(pool, b)) <==> BetterFit(pool[a], a, pool[b], b)
  {
  }

  // ---------------------------------------------------------------- what is shown, and what is not

  /** An experience pack shows its items in this order. */
  lemma ShownInOrder(x: Inputs, a: nat, b: nat)
    requires InputsOk(x) && a < b < |Composed(x).kept|
    ensures Better(AllItems(x), Composed(x).kept[a], Composed(x).kept[b])
  {
    PackIsBounded(x);
    assert Composed(x).kept[a] in Composed(x).kept && Composed(x).kept[b] in Composed(x).kept;
    RankingMeans(AllItems(x), Composed(x).kept[a], Composed(x).kept[b]);
  }

  /** In this order the main loop takes the candidates outside the conflicts. */
  lemma TakenInOrder(x: Inputs, a: nat, b: nat)
    requires InputsOk(x) && a < b < |Others(x)|
    ensures Better(x.candidates, Others(x)[a], Others(x)[b])
  {
    assert Others(x)[a] in Others(x) && Others(x)[b] in Others(x);
    SameRanking(x);
    RankingMeans(x.candidates, Others(x)[a], Others(x)[b]);
  }

  /**
   * What a cap or the trim dropped is worse than every candidate that is shown; and what its section had no room for is
   * worse than every candidate of the section that is shown, conflicts aside.
   */
  lemma DroppedIsWorse(x: Inputs, k: Key, other: Key)
    requires InputsOk(x) && other in Composed(x).kept && other in x.candidates && k in x.candidates
    requires k !in Members(x.conflicts) && k !in Composed(x).kept
    ensures k in FatedIn(x, Kept) ==> Better(x.candidates, other, k)
    ensures (k in FatedIn(x, OverBudget) && other !in Members(x.conflicts) &&
             x.candidates[other].section == x.candidates[k].section)
              ==> Better(x.candidates, other, k)
  {
    DroppedRanksBelow(x, k, other);
    RankingAgrees(x, other, k);
    RankingMeans(x.candidates, other, k);
  }

  /**
   * So an item dropped for want of room is less relevant than a shown one of its section that is like it in tier, scope
   * and match, or as relevant and older, or as recent too and later in the alphabet.
   */
  lemma LessRelevantIsDropped(x: Inputs, k: Key, other: Key)
    requires InputsOk(x) && other in Composed(x).kept && other in x.candidates && k in x.candidates
    requires k !in Members(x.conflicts) && other !in Members(x.conflicts) && k !in Composed(x).kept
    requires k in FatedIn(x, Kept) || k in FatedIn(x, OverBudget)
    requires "conflict" !in x.candidates[k].flags && "conflict" !in x.candidates[other].flags
    requires var i, j := x.candidates[k], x.candidates[other];
             i.section == j.section && i.tier == j.tier && i.scopeRank == j.scopeRank && i.matched == j.matched
    ensures x.candidates[k].fusion <= x.candidates[other].fusion
    ensures x.candidates[k].fusion == x.candidates[other].fusion ==>
              x.candidates[k].recency <= x.candidates[other].recency
  {
    DroppedIsWorse(x, k, other);
  }
}
