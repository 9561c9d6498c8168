/** What the caps and the trim leave of the selection, told without the loops that cut it. */
module PackStages {
  import opened Sorting
  import opened PackModel
  import opened PackSettle
  import opened PackSelect
  import opened PackCompose
  import opened PackGuarantees
  import opened PackAccounting
  import opened PackOrder
  import opened PackRows
  import opened Wrappers

  // ---------------------------------------------------------------- settling

  ghost predicate Unsplit(live: set<Conflict>, keys: set<Key>) {
    forall c :: c in live ==> c.members <= keys || c.members !! keys
  }

  /** `left` is what remains of some keys when every live set that is not whole among them goes, and so on. */
  ghost predicate Settles(live: set<Conflict>, keys: set<Key>, left: set<Key>) {
    && left <= keys && Unsplit(live, left)
    && forall t :: t <= keys && Unsplit(live, t) ==> t <= left
  }

  lemma SettlesIs(kept: seq<Key>, live: set<Conflict>)
    ensures Settles(live, KeySet(kept), KeySet(SettledKept(kept, live)))
    ensures forall c :: c in SettledLive(kept, live) <==>
                        c in live && c.members <= KeySet(SettledKept(kept, live))
  {
    SettledKeys(kept, live);
    GreatestIsStable(live, KeySet(kept));
    forall t | t <= KeySet(kept) && Unsplit(live, t) ensures t <= Greatest(live, KeySet(kept)) {
      assert StableWithin(live, KeySet(kept), t);
    }
  }

  // ---------------------------------------------------------------- the total cap

  /** The n best of some keys, or all if there are no more. */
  ghost predicate BestOf(pool: Pool, keys: set<Key>, n: nat, best: set<Key>) {
    && best <= keys <= pool.Keys && (|keys| <= n ==> best == keys) && (|keys| > n ==> |best| == n)
    && forall j, k :: j in best && k in keys && k !in best ==> Better(pool, j, k)
  }

  /** The n best are kept, then what remains is settled; live stays what is whole. */
  ghost predicate CutTo(pool: Pool, n: nat, keys: set<Key>, live: set<Conflict>, t: Selection) {
    && (exists best :: BestOf(pool, keys, n, best) && Settles(live, best, KeySet(t.kept)))
    && (forall c :: c in t.live <==> c in live && c.members <= KeySet(t.kept))
  }

  lemma CapMeans(pool: Pool, conflicts: set<Conflict>, params: Params, s: Selection)
    requires WholeOrNothing(conflicts, s) && KeySet(s.kept) <= pool.Keys
    ensures CutTo(pool, params.maxItems, KeySet(s.kept), s.live, Cap(pool, params, s))
  {
    var ranked := Ranked(pool, KeySet(s.kept));
    SortKeepsWhole(pool, conflicts, s);
    if |ranked| <= params.maxItems {
      assert BestOf(pool, KeySet(s.kept), params.maxItems, KeySet(s.kept));
      assert Settles(s.live, KeySet(s.kept), KeySet(ranked));
    } else {
      BestAreFirst(pool, ranked, KeySet(s.kept), params.maxItems);
      SettlesIs(ranked[..params.maxItems], s.live);
      SettleAllIs(Shortened(s.(kept := ranked), params.maxItems));
    }
  }

  lemma BestAreFirst(pool: Pool, ranked: seq<Key>, keys: set<Key>, n: nat)
    requires SortedBy(Ranking(pool), ranked) && Elements(ranked, keys) && |ranked| == |keys| && keys <= pool.Keys
    requires n < |ranked|
    ensures BestOf(pool, keys, n, KeySet(ranked[..n]))
  {
    RankingStrictTotal(pool);
    DistinctWhenSorted(Ranking(pool), ranked);
    SplitKeys(ranked, n);
    DistinctSize(ranked[..n]);
    assert KeySet(ranked) == keys && |KeySet(ranked[..n])| == n;
    forall j, k | j in KeySet(ranked[..n]) && k in keys && k !in KeySet(ranked[..n]) ensures Better(pool, j, k) {
      HeadIsBetter(pool, ranked, n, j, k);
      RankingMeans(pool, j, k);
    }
  }

  lemma HeadIsBetter(pool: Pool, ranked: seq<Key>, n: nat, j: Key, k: Key)
    requires SortedBy(Ranking(pool), ranked) && n < |ranked|
    requires j in ranked[..n] && k in ranked && k !in ranked[..n]
    ensures Ranking(pool)(j, k)
  {
    var a :| 0 <= a < n && ranked[..n][a] == j;
    var b :| 0 <= b < |ranked| && ranked[b] == k;
    assert forall c :: 0 <= c < n ==> ranked[c] in ranked[..n];
  }

  /** The selection is cut to the best, once before and once after raw rows are added. */
  lemma CappedMeans(x: Inputs)
    requires InputsOk(x)
    ensures CutTo(AllItems(x), x.params.maxItems, KeySet(Selected(x).kept), Selected(x).live, Capped(x))
  {
    SelectedFacts(x);
    assert KeySet(Selected(x).kept) <= AllItems(x).Keys;
    CapMeans(AllItems(x), x.conflicts, x.params, Selected(x));
  }

  lemma FallbackMeans(x: Inputs)
    requires InputsOk(x)
    ensures if x.rawAllowed && !PrimaryLeft(x) && x.rows.Some? then
              CutTo(AllItems(x), x.params.maxItems, KeySet(Capped(x).kept) + NewRows(x), Capped(x).live,
                    Fallback(x, Capped(x)))
            else Fallback(x, Capped(x)) == Capped(x)
  {
    NeedsRawMeans(x);
    if x.rawAllowed && !PrimaryLeft(x) && x.rows.Some? {
      FallbackCut(x);
    }
  }

  lemma FallbackCut(x: Inputs)
    requires InputsOk(x) && x.rows.Some? && NeedsRaw(x, Capped(x))
    ensures CutTo(AllItems(x), x.params.maxItems, KeySet(Capped(x).kept) + NewRows(x), Capped(x).live,
                  Fallback(x, Capped(x)))
  {
    var added := AddRows(AllItems(x), Capped(x), Picked(x));
    RowsJoin(x);
    CapMeans(AllItems(x), x.conflicts, x.params, added);
  }

  lemma RowsJoin(x: Inputs)
    requires InputsOk(x) && x.rows.Some?
    ensures var added := AddRows(AllItems(x), Capped(x), Picked(x));
            && WholeOrNothing(x.conflicts, added) && added.live == Capped(x).live
            && KeySet(added.kept) == KeySet(Capped(x).kept) + NewRows(x) && KeySet(added.kept) <= AllItems(x).Keys
  {
    CappedSound(x);
    FallbackAdds(x);
    AddRowsFacts(x, Capped(x), Picked(x));
    JoinedKeys(Capped(x).kept, Picked(x), NewRows(x));
    CappedInPool(x);
    NewRowsInPool(x);
  }

  lemma JoinedKeys(kept: seq<Key>, ks: seq<Key>, keys: set<Key>)
    requires forall k :: k in keys ==> k in ks
    ensures KeySet(kept + Keep(ks, keys)) == KeySet(kept) + keys
  {
  }

  lemma CappedInPool(x: Inputs)
    requires InputsOk(x)
    ensures KeySet(Capped(x).kept) <= AllItems(x).Keys
  {
    SelectedFacts(x);
    CappedSound(x);
  }

  lemma NewRowsInPool(x: Inputs)
    requires InputsOk(x) && x.rows.Some?
    ensures NewRows(x) <= AllItems(x).Keys
  {
    forall k | k in NewRows(x) ensures k in AllItems(x) {
      RawItem(x, k);
    }
  }

  // ---------------------------------------------------------------- the trim

  /** The encoded selection with a four-digit token count does not fit. */
  predicate Overlong(x: Inputs, s: Selection) { x.bytes(s) + 4 > x.params.maxPackBytes }

  /** The last item went, then what remained was settled, and the loss was counted. */
  ghost predicate LostLast(s: Selection, t: Selection) {
    && s.kept != []
    && t.kept == Keep(s.kept, KeySet(t.kept))
    && Settles(s.live, KeySet(s.kept[..|s.kept| - 1]), KeySet(t.kept))
    && (forall c :: c in t.live <==> c in s.live && c.members <= KeySet(t.kept))
    && t.diag.packBytes == s.diag.packBytes + 1
  }

  /** Items were lost one by one, each from a selection that did not fit. */
  ghost predicate TrimRun(x: Inputs, run: seq<Selection>) {
    && run != []
    && forall i :: 0 <= i < |run| - 1 ==> Overlong(x, run[i]) && LostLast(run[i], run[i + 1])
  }

  lemma PopMeans(s: Selection)
    requires s.kept != [] && forall i, j :: 0 <= i < j < |s.kept| ==> s.kept[i] != s.kept[j]
    ensures LostLast(s, Pop(s))
    ensures forall i, j :: 0 <= i < j < |Pop(s).kept| ==> Pop(s).kept[i] != Pop(s).kept[j]
  {
    var short := s.kept[..|s.kept| - 1];
    var last := s.kept[|s.kept| - 1];
    var t := Pop(s);
    SettleAllIs(s.(kept := short, diag := s.diag.(packBytes := s.diag.packBytes + 1)));
    SettlesIs(short, s.live);
    SettledKeys(short, s.live);
    assert last !in short;
    KeepOnce(short, Greatest(s.live, KeySet(short)));
  }

  lemma {:induction false} KeepOnce(s: seq<Key>, keys: set<Key>)
    requires forall i, j :: 0 <= i < j < |s| ==> s[i] != s[j]
    ensures forall i, j :: 0 <= i < j < |Keep(s, keys)| ==> Keep(s, keys)[i] != Keep(s, keys)[j]
  {
    if s != [] {
      var most, last := s[..|s| - 1], s[|s| - 1];
      KeepOnce(most, keys);
      assert last !in most && last !in Keep(most, keys);
    }
  }

  /** The trim is such a run, and it ends with the first selection that fits, or with nothing. */
  lemma {:induction false} TrimMeans(x: Inputs, s: Selection) returns (run: seq<Selection>)
    requires forall i, j :: 0 <= i < j < |s.kept| ==> s.kept[i] != s.kept[j]
    ensures TrimRun(x, run) && run[0] == s && run[|run| - 1] == Trim(x, s)
    ensures Trim(x, s).kept == [] || !Overlong(x, Trim(x, s))
    decreases |s.kept|
  {
    run := [s];
    if TooLong(x, s) {
      PopMeans(s);
      var rest := TrimMeans(x, Pop(s));
      run := [s] + rest;
      assert forall i :: 0 < i < |run| ==> run[i] == rest[i - 1];
    }
  }

  lemma ComposedMeans(x: Inputs) returns (run: seq<Selection>)
    requires InputsOk(x)
    ensures TrimRun(x, run) && run[0] == Fallback(x, Capped(x)) && run[|run| - 1] == Composed(x)
    ensures Composed(x).kept == [] || !Overlong(x, Composed(x))
  {
    FallbackSound(x);
    RankingStrictTotal(AllItems(x));
    DistinctWhenSorted(Ranking(AllItems(x)), Fallback(x, Capped(x)).kept);
    run := TrimMeans(x, Fallback(x, Capped(x)));
  }

  // ---------------------------------------------------------------- the token estimate

  function Power(n: nat): nat { if n == 0 then 1 else 10 * Power(n - 1) }

  /** The number of decimal digits. */
  lemma {:induction false} DigitsMean(n: nat)
    ensures Digits(n) >= 1 && n < Power(Digits(n)) && (n > 0 ==> Power(Digits(n) - 1) <= n)
  {
    if n >= 10 {
      DigitsMean(n / 10);
    }
  }

  /** A quarter of the bytes of the experience pack encoded with the placeholder 9999, rounded down. */
  lemma TokensMean(x: Inputs, s: Selection)
    ensures 4 * Tokens(x, s) <= x.bytes(s) + |"9999"| < 4 * Tokens(x, s) + 4
  {
  }
}
