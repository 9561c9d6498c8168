/** also_matched: which item lists the candidates that said the same in the same words. */
module PackRepeats {
  import opened PackModel
  import opened PackSettle
  import opened PackSelect
  import opened PackFates
  import opened PackCompose
  import opened PackGuarantees
  import opened PackTexts
  import opened Wrappers

  function Listed(s: Selection, o: Key): seq<Key> { if o in s.alsoMatched then s.alsoMatched[o] else [] }

  /** The candidates among `texts` whose text is remembered by o. */
  function RepeatsOf(pool: Pool, s: Selection, texts: set<Key>, o: Key): set<Key> {
    set k | k in texts && k in pool && pool[k].digest in s.digests && s.digests[pool[k].digest] == o
  }

  /** The loop has added the texts of `taken`, each once, and has listed those of `texts` with their owners. */
  ghost predicate Texts(pool: Pool, s: Selection, t: Selection, order: seq<Key>, taken: set<Key>, texts: set<Key>) {
    && (forall d :: d in s.digests ==> d in t.digests && t.digests[d] == s.digests[d])
    && (forall d :: d in t.digests && d !in s.digests ==>
          t.digests[d] in taken && t.digests[d] in pool && pool[t.digests[d]].digest == d)
    && (forall o :: o in taken ==>
          o in pool && pool[o].digest !in s.digests && pool[o].digest in t.digests && t.digests[pool[o].digest] == o)
    && (forall k :: k in texts ==> k in pool && pool[k].digest in t.digests)
    && (forall o :: Listed(t, o) == Listed(s, o) + Keep(order, RepeatsOf(pool, t, texts, o)))
  }

  lemma NoTexts(pool: Pool, s: Selection)
    ensures Texts(pool, s, s, [], {}, {})
  {
  }

  /** A new text is remembered. */
  lemma NewText(pool: Pool, s: Selection, t: Selection, order: seq<Key>, taken: set<Key>, texts: set<Key>, k: Key,
                u: Selection)
    requires Texts(pool, s, t, order, taken, texts) && k in pool && k !in texts && pool[k].digest !in t.digests
    requires u.digests == t.digests[pool[k].digest := k] && u.alsoMatched == t.alsoMatched
    ensures Texts(pool, s, u, order + [k], taken + {k}, texts)
  {
    forall o ensures Listed(u, o) == Listed(s, o) + Keep(order + [k], RepeatsOf(pool, u, texts, o)) {
      assert RepeatsOf(pool, u, texts, o) == RepeatsOf(pool, t, texts, o);
      KeepLast(order, k, RepeatsOf(pool, t, texts, o));
    }
  }

  lemma KeepLast(order: seq<Key>, k: Key, keys: set<Key>)
    ensures Keep(order + [k], keys) == Keep(order, keys) + if k in keys then [k] else []
  {
    assert (order + [k])[..|order|] == order;
  }

  /** A repeated text is listed with the one that it repeats. */
  lemma OldText(pool: Pool, s: Selection, t: Selection, order: seq<Key>, taken: set<Key>, texts: set<Key>, k: Key)
    requires Texts(pool, s, t, order, taken, texts) && k in pool && k !in order && pool[k].digest in t.digests
    ensures Texts(pool, s, Matched(t, k, pool[k].digest), order + [k], taken, texts + {k})
  {
    var u := Matched(t, k, pool[k].digest);
    forall o ensures Listed(u, o) == Listed(s, o) + Keep(order + [k], RepeatsOf(pool, u, texts + {k}, o)) {
      var keys := RepeatsOf(pool, u, texts + {k}, o);
      KeepLast(order, k, keys);
      KeepSame(order, keys, RepeatsOf(pool, t, texts, o));
      assert k in keys <==> t.digests[pool[k].digest] == o;
      assert Listed(u, o) == Listed(t, o) + if t.digests[pool[k].digest] == o then [k] else [];
    }
  }

  lemma NothingNew(pool: Pool, s: Selection, t: Selection, order: seq<Key>, taken: set<Key>, texts: set<Key>, k: Key,
                   u: Selection)
    requires Texts(pool, s, t, order, taken, texts) && k !in texts
    requires u.digests == t.digests && u.alsoMatched == t.alsoMatched
    ensures Texts(pool, s, u, order + [k], taken, texts)
  {
    forall o ensures Listed(u, o) == Listed(s, o) + Keep(order + [k], RepeatsOf(pool, u, texts, o)) {
      KeepLast(order, k, RepeatsOf(pool, t, texts, o));
      assert RepeatsOf(pool, u, texts, o) == RepeatsOf(pool, t, texts, o);
    }
  }

  /** Taken are the candidates that were kept and those for which there was no room. */
  function Taken(pool: Pool, params: Params, cites: Citations, s: Selection, order: seq<Key>): set<Key>
    requires forall k :: k in order ==> k in pool
  {
    Fated(pool, params, cites, s, order, Kept) + Fated(pool, params, cites, s, order, OverBudget)
  }

  lemma {:induction false} LoopTexts(pool: Pool, params: Params, cites: Citations, conflicts: set<Conflict>,
                                     s: Selection, order: seq<Key>)
    requires Loose(pool, conflicts, order)
    ensures Texts(pool, s, TakeAll(pool, params, cites, s, order), order, Taken(pool, params, cites, s, order),
                  Fated(pool, params, cites, s, order, SameText))
  {
    if order == [] {
      NoTurnTexts(pool, params, cites, s);
    } else {
      var most, k := order[..|order| - 1], order[|order| - 1];
      LoosePrefix(pool, conflicts, order);
      LoopTexts(pool, params, cites, conflicts, s, most);
      LastSplit(order);
      NextText(pool, params, cites, conflicts, s, order, most, k);
    }
  }

  lemma NoTurnTexts(pool: Pool, params: Params, cites: Citations, s: Selection)
    ensures Texts(pool, s, TakeAll(pool, params, cites, s, []), [], Taken(pool, params, cites, s, []),
                  Fated(pool, params, cites, s, [], SameText))
  {
    NoTexts(pool, s);
  }

  lemma LastSplit<T>(order: seq<T>)
    requires order != []
    ensures order == order[..|order| - 1] + [order[|order| - 1]]
  {
  }

  lemma NextFate(pool: Pool, params: Params, cites: Citations, s: Selection, order: seq<Key>, most: seq<Key>, k: Key,
                 f: Fate)
    requires order == most + [k] && (forall j :: j in order ==> j in pool) && (forall j :: j in most ==> j in pool)
    requires k in pool
    ensures var fate := FateOf(pool, params, cites, TakeAll(pool, params, cites, s, most), k);
            Fated(pool, params, cites, s, order, f) ==
              if fate == f then Fated(pool, params, cites, s, most, f) + {k} else Fated(pool, params, cites, s, most, f)
  {
    assert order[..|order| - 1] == most && order[|order| - 1] == k;
  }

  lemma NextText(pool: Pool, params: Params, cites: Citations, conflicts: set<Conflict>, s: Selection, order: seq<Key>,
                 most: seq<Key>, k: Key)
    requires order == most + [k] && Loose(pool, conflicts, order) && Loose(pool, conflicts, most) && k !in most
    requires k in pool
    requires Texts(pool, s, TakeAll(pool, params, cites, s, most), most, Taken(pool, params, cites, s, most),
                   Fated(pool, params, cites, s, most, SameText))
    ensures Texts(pool, s, TakeAll(pool, params, cites, s, order), order, Taken(pool, params, cites, s, order),
                  Fated(pool, params, cites, s, order, SameText))
  {
    OneTurn(pool, params, cites, s, TakeAll(pool, params, cites, s, most), most, Taken(pool, params, cites, s, most),
            Fated(pool, params, cites, s, most, SameText), k);
    NextSets(pool, params, cites, s, order, most, k);
  }

  lemma NextSets(pool: Pool, params: Params, cites: Citations, s: Selection, order: seq<Key>, most: seq<Key>, k: Key)
    requires order == most + [k] && (forall j :: j in order ==> j in pool) && (forall j :: j in most ==> j in pool)
    requires k in pool
    ensures var t := TakeAll(pool, params, cites, s, most);
            var fate, texts := FateOf(pool, params, cites, t, k), Fated(pool, params, cites, s, most, SameText);
            && TakeAll(pool, params, cites, s, order) == Take(pool, params, cites, t, k)
            && Taken(pool, params, cites, s, order) == TakenAfter(Taken(pool, params, cites, s, most), fate, k)
            && Fated(pool, params, cites, s, order, SameText) == if fate.SameText? then texts + {k} else texts
  {
    assert order[..|order| - 1] == most && order[|order| - 1] == k;
    NextFate(pool, params, cites, s, order, most, k, SameText);
    NextFate(pool, params, cites, s, order, most, k, Kept);
    NextFate(pool, params, cites, s, order, most, k, OverBudget);
  }

  function TakenAfter(taken: set<Key>, fate: Fate, k: Key): set<Key> {
    if fate.Kept? || fate.OverBudget? then taken + {k} else taken
  }

  lemma OneTurn(pool: Pool, params: Params, cites: Citations, s: Selection, t: Selection, order: seq<Key>,
                taken: set<Key>, texts: set<Key>, k: Key)
    requires Texts(pool, s, t, order, taken, texts) && k in pool && k !in order && k !in texts
    ensures var fate := FateOf(pool, params, cites, t, k);
            Texts(pool, s, Take(pool, params, cites, t, k), order + [k], TakenAfter(taken, fate, k),
                  if fate.SameText? then texts + {k} else texts)
  {
    var u := Take(pool, params, cites, t, k);
    match FateOf(pool, params, cites, t, k)
    case Kept => NewText(pool, s, t, order, taken, texts, k, u);
    case OverBudget => NewText(pool, s, t, order, taken, texts, k, u);
    case SameText => OldText(pool, s, t, order, taken, texts, k);
    case _ => NothingNew(pool, s, t, order, taken, texts, k, u);
  }

  // ---------------------------------------------------------------- the texts of the admitted conflict members

  /** o is the first of the kept items with its text. */
  ghost predicate FirstOfText(pool: Pool, kept: seq<Key>, o: Key) {
    && o in pool
    && exists n :: 0 <= n < |kept| && kept[n] == o && NoneBefore(pool, kept, n, pool[o].digest)
  }

  ghost predicate NoneBefore(pool: Pool, kept: seq<Key>, n: int, d: string) {
    forall m :: 0 <= m < n && m < |kept| ==> kept[m] in pool && pool[kept[m]].digest != d
  }

  lemma FirstIsOne(pool: Pool, kept: seq<Key>, o: Key, p: Key)
    requires FirstOfText(pool, kept, o) && FirstOfText(pool, kept, p) && pool[o].digest == pool[p].digest
    ensures o == p
  {
  }

  lemma FirstStays(pool: Pool, kept: seq<Key>, o: Key, k: Key)
    requires FirstOfText(pool, kept, o)
    ensures FirstOfText(pool, kept + [k], o)
  {
    var n :| 0 <= n < |kept| && kept[n] == o && NoneBefore(pool, kept, n, pool[o].digest);
    assert (kept + [k])[n] == o && NoneBefore(pool, kept + [k], n, pool[o].digest);
  }

  lemma FirstIsNew(pool: Pool, kept: seq<Key>, k: Key)
    requires k in pool && forall j :: j in kept ==> j in pool && pool[j].digest != pool[k].digest
    ensures FirstOfText(pool, kept + [k], k)
  {
    assert (kept + [k])[|kept|] == k && NoneBefore(pool, kept + [k], |kept|, pool[k].digest);
  }

  /** Every text is remembered by the first kept item that has it. */
  ghost predicate Firsts(pool: Pool, s: Selection) {
    && Noticed(pool, s, {}) && (forall j :: j in s.kept ==> j in pool)
    && forall d :: d in s.digests ==>
         FirstOfText(pool, s.kept, s.digests[d]) && pool[s.digests[d]].digest == d
  }

  lemma MemberFirsts(pool: Pool, s: Selection, k: Key)
    requires Firsts(pool, s) && k in pool
    ensures Firsts(pool, Admit(pool, s, k))
  {
    var t := Admit(pool, s, k);
    MemberNoticed(pool, s, k);
    forall d | d in t.digests ensures FirstOfText(pool, t.kept, t.digests[d]) && pool[t.digests[d]].digest == d {
      if d in s.digests {
        FirstStays(pool, s.kept, s.digests[d], k);
      } else {
        assert forall j :: j in s.kept ==> j in KeySet(s.kept);
        FirstIsNew(pool, s.kept, k);
      }
    }
  }

  lemma {:induction false} AllFirsts(pool: Pool, s: Selection, ks: seq<Key>)
    requires Firsts(pool, s) && forall k :: k in ks ==> k in pool
    ensures Firsts(pool, AdmitAll(pool, s, ks))
  {
    if ks != [] {
      AllFirsts(pool, s, ks[..|ks| - 1]);
      MemberFirsts(pool, AdmitAll(pool, s, ks[..|ks| - 1]), ks[|ks| - 1]);
    }
  }

  lemma {:induction false} SetsFirsts(pool: Pool, params: Params, s: Selection, order: seq<Conflict>)
    requires Firsts(pool, s) && forall c :: c in order ==> c.members <= pool.Keys
    ensures Firsts(pool, AdmitSets(pool, params, s, order))
    ensures AdmitSets(pool, params, s, order).alsoMatched == s.alsoMatched
  {
    if order != [] {
      var most, c := order[..|order| - 1], order[|order| - 1];
      assert c in order;
      SetsFirsts(pool, params, s, most);
      var t := AdmitSets(pool, params, s, most);
      MissingFacts(t, c);
      if Fits(params, t, |Missing(t, c)|) {
        AllFirsts(pool, t, Missing(t, c));
        MembersList(pool, t, Missing(t, c));
      }
    }
  }

  lemma {:induction false} MembersList(pool: Pool, s: Selection, ks: seq<Key>)
    requires forall k :: k in ks ==> k in pool
    ensures AdmitAll(pool, s, ks).alsoMatched == s.alsoMatched
  {
    if ks != [] {
      MembersList(pool, s, ks[..|ks| - 1]);
    }
  }

  lemma AdmittedFirsts(x: Inputs)
    requires InputsOk(x)
    ensures Firsts(x.candidates, Admitted(x)) && Admitted(x).alsoMatched == map[]
  {
    var s := AdmitSets(x.candidates, x.params, Nothing(x.conflicts), AdmissionOrder(x));
    SetsFirsts(x.candidates, x.params, Nothing(x.conflicts), AdmissionOrder(x));
    AdmittedIsSettled(x.candidates, x.params, x.conflicts, AdmissionOrder(x));
    SettledFirsts(x.candidates, s);
  }

  lemma SettledFirsts(pool: Pool, s: Selection)
    requires Firsts(pool, s) && SettledKept(s.kept, s.live) == s.kept
    ensures Firsts(pool, SettleAll(s)) && SettleAll(s).alsoMatched == s.alsoMatched
  {
    SettleAllIs(s);
  }

  // ---------------------------------------------------------------- the lists of a composed pack

  lemma {:induction false} RowsList(pool: Pool, s: Selection, ks: seq<Key>)
    requires forall k :: k in ks ==> k in pool
    ensures AddRows(pool, s, ks).alsoMatched == s.alsoMatched
  {
    if ks != [] {
      RowsList(pool, s, ks[..|ks| - 1]);
    }
  }

  lemma {:induction false} TrimLists(x: Inputs, s: Selection)
    ensures Trim(x, s).alsoMatched == s.alsoMatched
    decreases |s.kept|
  {
    if TooLong(x, s) {
      TrimLists(x, Pop(s));
    }
  }

  lemma CapLists(pool: Pool, params: Params, s: Selection)
    ensures Cap(pool, params, s).alsoMatched == s.alsoMatched
  {
  }

  lemma FallbackLists(x: Inputs, s: Selection)
    requires InputsOk(x)
    ensures Fallback(x, s).alsoMatched == s.alsoMatched
  {
    if NeedsRaw(x, s) && x.rows.Some? {
      RowsList(AllItems(x), s, Picked(x));
      CapLists(AllItems(x), x.params, AddRows(AllItems(x), s, Picked(x)));
    }
  }

  lemma ListsStay(x: Inputs)
    requires InputsOk(x)
    ensures Composed(x).alsoMatched == Selected(x).alsoMatched
  {
    CapLists(AllItems(x), x.params, Selected(x));
    FallbackLists(x, Capped(x));
    TrimLists(x, Fallback(x, Capped(x)));
  }

  /**
   * The item whose text counts: a candidate that had its turn, or the first admitted conflict member with that text.
   */
  ghost predicate Remembered(x: Inputs, o: Key)
    requires InputsOk(x)
  {
    o in FatedIn(x, Kept) || o in FatedIn(x, OverBudget) || FirstOfText(x.candidates, Admitted(x).kept, o)
  }

  ghost predicate Repeats(x: Inputs, k: Key, o: Key)
    requires InputsOk(x)
  {
    && k in x.candidates && o in x.candidates && k in FatedIn(x, SameText)
    && x.candidates[k].digest == x.candidates[o].digest && Remembered(x, o)
  }

  ghost function RepeatsIn(x: Inputs, o: Key): set<Key>
    requires InputsOk(x)
  {
    set k | k in x.candidates && Repeats(x, k, o)
  }

  /** Each item lists, best first, exactly the candidates that were left out because they repeat its text. */
  lemma AlsoMatchedMeans(x: Inputs, o: Key)
    requires InputsOk(x)
    ensures Listed(Composed(x), o) == Keep(Others(x), RepeatsIn(x, o))
  {
    ListsStay(x);
    SelectedList(x, o);
  }

  lemma SelectedList(x: Inputs, o: Key)
    requires InputsOk(x)
    ensures Listed(Selected(x), o) == Keep(Others(x), RepeatsIn(x, o))
  {
    OthersLoose(x);
    AdmittedFirsts(x);
    SelectedTexts(x);
    OwnersAre(x, o);
    ListGrown(x.candidates, Admitted(x), Selected(x), Others(x), FatedIn(x, Kept) + FatedIn(x, OverBudget),
              FatedIn(x, SameText), o);
  }

  lemma ListGrown(pool: Pool, s: Selection, t: Selection, order: seq<Key>, taken: set<Key>, texts: set<Key>, o: Key)
    requires Texts(pool, s, t, order, taken, texts) && s.alsoMatched == map[]
    ensures Listed(t, o) == Keep(order, RepeatsOf(pool, t, texts, o))
  {
  }

  lemma SelectedTexts(x: Inputs)
    requires InputsOk(x) && Loose(x.candidates, x.conflicts, Others(x))
    ensures Texts(x.candidates, Admitted(x), Selected(x), Others(x), FatedIn(x, Kept) + FatedIn(x, OverBudget),
                  FatedIn(x, SameText))
  {
    LoopTexts(x.candidates, x.params, x.cites, x.conflicts, Admitted(x), Others(x));
  }

  lemma OwnersAre(x: Inputs, o: Key)
    requires InputsOk(x) && Firsts(x.candidates, Admitted(x))
    requires Texts(x.candidates, Admitted(x), Selected(x), Others(x), FatedIn(x, Kept) + FatedIn(x, OverBudget),
                   FatedIn(x, SameText))
    ensures RepeatsIn(x, o) == RepeatsOf(x.candidates, Selected(x), FatedIn(x, SameText), o)
  {
    forall k ensures k in RepeatsIn(x, o) <==> k in RepeatsOf(x.candidates, Selected(x), FatedIn(x, SameText), o) {
      if k in x.candidates && k in FatedIn(x, SameText) {
        OwnerIs(x.candidates, Admitted(x), Selected(x), Others(x), FatedIn(x, Kept) + FatedIn(x, OverBudget),
                FatedIn(x, SameText), k, o);
      }
    }
  }

  lemma OwnerIs(pool: Pool, s: Selection, t: Selection, order: seq<Key>, taken: set<Key>, texts: set<Key>, k: Key,
                o: Key)
    requires Firsts(pool, s) && Texts(pool, s, t, order, taken, texts) && k in texts && k in pool
    ensures pool[k].digest in t.digests
    ensures t.digests[pool[k].digest] == o <==>
              o in pool && pool[o].digest == pool[k].digest && (o in taken || FirstOfText(pool, s.kept, o))
  {
    if o in pool && pool[o].digest == pool[k].digest && FirstOfText(pool, s.kept, o) {
      assert o in s.kept && o in KeySet(s.kept);
      FirstIsOne(pool, s.kept, o, s.digests[pool[o].digest]);
    }
  }
}
