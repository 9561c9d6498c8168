/** What becomes of each candidate outside the conflicts at its turn, told by those that came before it. */
module PackTexts {
  import opened Order
  import opened Sorting
  import opened PackModel
  import opened PackSettle
  import opened PackSelect
  import opened PackFates
  import opened PackCompose
  import opened PackGuarantees
  import opened PackNovelty
  import opened PackOrder
  import opened Wrappers

  // ---------------------------------------------------------------- what the loop remembers

  /** Besides what is kept, only candidates over budget have been seen; texts are those seen, groups those kept. */
  ghost predicate Noticed(pool: Pool, s: Selection, over: set<Key>) {
    && s.keys == KeySet(s.kept) + over
    && (forall d :: d in s.digests <==> exists j :: j in s.keys && j in pool && pool[j].digest == d)
    && (forall g :: g in s.groups <==> exists j :: j in s.kept && j in pool && pool[j].group == Some(g))
  }

  lemma MemberNoticed(pool: Pool, s: Selection, k: Key)
    requires Noticed(pool, s, {}) && k in pool
    ensures Noticed(pool, Admit(pool, s, k), {})
  {
    var t := Admit(pool, s, k);
    assert forall j :: j in t.kept <==> j in s.kept || j == k;
    assert t.keys == KeySet(t.kept);
    NoticedOneMore(pool, s, t, k);
  }

  /** k has been kept, and its text and its group have been noted. */
  lemma NoticedOneMore(pool: Pool, s: Selection, t: Selection, k: Key)
    requires k in pool && t.keys == s.keys + {k} && (forall j :: j in t.kept <==> j in s.kept || j == k)
    requires forall d :: d in s.digests <==> exists j :: j in s.keys && j in pool && pool[j].digest == d
    requires forall g :: g in s.groups <==> exists j :: j in s.kept && j in pool && pool[j].group == Some(g)
    requires t.digests.Keys == s.digests.Keys + {pool[k].digest} && t.groups == s.groups + GroupOf(pool[k])
    ensures forall d :: d in t.digests <==> exists j :: j in t.keys && j in pool && pool[j].digest == d
    ensures forall g :: g in t.groups <==> exists j :: j in t.kept && j in pool && pool[j].group == Some(g)
  {
    TextsOneMore(pool, s, t, k);
    forall g ensures g in t.groups <==> exists j :: j in t.kept && j in pool && pool[j].group == Some(g) {
      if g in t.groups {
        assert g in s.groups || pool[k].group == Some(g);
      }
      if j :| j in t.kept && j in pool && pool[j].group == Some(g) {
        assert j in s.kept || j == k;
      }
    }
  }

  lemma TextsOneMore(pool: Pool, s: Selection, t: Selection, k: Key)
    requires k in pool && t.keys == s.keys + {k} && t.digests.Keys == s.digests.Keys + {pool[k].digest}
    requires forall d :: d in s.digests <==> exists j :: j in s.keys && j in pool && pool[j].digest == d
    ensures forall d :: d in t.digests <==> exists j :: j in t.keys && j in pool && pool[j].digest == d
  {
    forall d ensures d in t.digests <==> exists j :: j in t.keys && j in pool && pool[j].digest == d {
      assert d in t.digests <==> d in s.digests || d == pool[k].digest;
      if j :| j in t.keys && j in pool && pool[j].digest == d {
        assert j in s.keys || j == k;
      }
      if d in s.digests {
        var j :| j in s.keys && j in pool && pool[j].digest == d;
        assert j in t.keys;
      }
      assert k in t.keys;
    }
  }

  lemma {:induction false} AllNoticed(pool: Pool, s: Selection, ks: seq<Key>)
    requires Noticed(pool, s, {}) && forall k :: k in ks ==> k in pool
    ensures Noticed(pool, AdmitAll(pool, s, ks), {})
  {
    if ks != [] {
      AllNoticed(pool, s, ks[..|ks| - 1]);
      MemberNoticed(pool, AdmitAll(pool, s, ks[..|ks| - 1]), ks[|ks| - 1]);
    }
  }

  lemma {:induction false} SetsNoticed(pool: Pool, params: Params, s: Selection, order: seq<Conflict>)
    requires Noticed(pool, s, {}) && forall c :: c in order ==> c.members <= pool.Keys
    ensures Noticed(pool, AdmitSets(pool, params, s, order), {})
  {
    if order != [] {
      var most, c := order[..|order| - 1], order[|order| - 1];
      assert c in order;
      SetsNoticed(pool, params, s, most);
      var t := AdmitSets(pool, params, s, most);
      MissingFacts(t, c);
      if Fits(params, t, |Missing(t, c)|) {
        AllNoticed(pool, t, Missing(t, c));
      }
    }
  }

  lemma AdmittedNoticed(x: Inputs)
    requires InputsOk(x)
    ensures Noticed(x.candidates, Admitted(x), {})
  {
    var s := AdmitSets(x.candidates, x.params, Nothing(x.conflicts), AdmissionOrder(x));
    SetsNoticed(x.candidates, x.params, Nothing(x.conflicts), AdmissionOrder(x));
    AdmittedIsSettled(x.candidates, x.params, x.conflicts, AdmissionOrder(x));
    SettleAllIs(s);
  }

  lemma PlaceNotices(pool: Pool, s: Selection, over: set<Key>, k: Key)
    requires Noticed(pool, s, over) && k in pool
    ensures Noticed(pool, Place(pool, s, k), over)
  {
    var t := Place(pool, s, k);
    assert forall j :: j in t.kept <==> j in s.kept || j == k;
    NoticedOneMore(pool, s, t, k);
    assert t.keys == KeySet(t.kept) + over;
  }

  lemma SeenNotices(pool: Pool, s: Selection, over: set<Key>, k: Key, diag: Diagnostics)
    requires Noticed(pool, s, over) && k in pool
    ensures Noticed(pool, Seen(s, k, pool[k].digest).(diag := diag), over + {k})
  {
    var t := Seen(s, k, pool[k].digest).(diag := diag);
    TextsOneMore(pool, s, t, k);
    assert t.keys == KeySet(t.kept) + (over + {k});
  }

  lemma TakeNotices(pool: Pool, params: Params, cites: Citations, s: Selection, over: set<Key>, k: Key)
    requires Noticed(pool, s, over) && k in pool
    ensures Noticed(pool, Take(pool, params, cites, s, k),
                    if FateOf(pool, params, cites, s, k) == OverBudget then over + {k} else over)
  {
    PlaceNotices(pool, s, over, k);
    SeenNotices(pool, s, over, k, Take(pool, params, cites, s, k).diag);
  }

  lemma {:induction false} LoopNotices(pool: Pool, params: Params, cites: Citations, s: Selection, order: seq<Key>)
    requires Noticed(pool, s, {}) && forall k :: k in order ==> k in pool
    ensures Noticed(pool, TakeAll(pool, params, cites, s, order),
                    Fated(pool, params, cites, s, order, OverBudget))
  {
    if order != [] {
      var most, last := order[..|order| - 1], order[|order| - 1];
      PrefixElements(order);
      LoopNotices(pool, params, cites, s, most);
      TakeNotices(pool, params, cites, TakeAll(pool, params, cites, s, most),
                  Fated(pool, params, cites, s, most, OverBudget), last);
    }
  }

  // ---------------------------------------------------------------- the fate of a candidate

  predicate InSection(pool: Pool, j: Key, section: Section) { j in pool && pool[j].section == section }

  /** One of the kept items belongs to its group. */
  predicate GroupKept(pool: Pool, kept: set<Key>, i: Item) {
    i.group.Some? && exists j :: j in kept && j in pool && pool[j].group == i.group
  }

  predicate TextSeen(pool: Pool, seen: set<Key>,
                     i: Item) { exists j :: j in seen && j in pool && pool[j].digest == i.digest }

  /** It is an episode that did not fail, and something seen is derived from it. */
  predicate EpisodeCited(cites: Citations, seen: set<Key>, i: Item) {
    && i.episode && !i.failure && i.ref.Some? && i.ref.value in cites
    && exists j :: j in seen && j in cites[i.ref.value]
  }

  /** Why a candidate is left out, or that it is kept: the first reason that applies decides. */
  ghost predicate FateFollows(pool: Pool, params: Params, cites: Citations, kept: set<Key>, seen: set<Key>, k: Key,
                              fate: Fate)
    requires k in pool
  {
    var i := pool[k];
    var room := |set j | j in kept && InSection(pool, j, i.section)| < params.budget(i.section);
    match fate
    case Duplicate => GroupKept(pool, kept, i)
    case SameText => !GroupKept(pool, kept, i) && TextSeen(pool, seen, i)
    case Cited => !GroupKept(pool, kept, i) && !TextSeen(pool, seen, i) && EpisodeCited(cites, seen, i)
    case OverBudget =>
      !GroupKept(pool, kept, i) && !TextSeen(pool, seen, i) && !EpisodeCited(cites, seen, i) && !room
    case Kept => !GroupKept(pool, kept, i) && !TextSeen(pool, seen, i) && !EpisodeCited(cites, seen, i) && room
  }

  lemma FateIs(pool: Pool, params: Params, cites: Citations, s: Selection, over: set<Key>, k: Key, fate: Fate)
    requires Noticed(pool, s, over) && WithinBudgets(pool, params, s) && k in pool && k !in s.keys
    ensures FateOf(pool, params, cites, s, k) == fate <==>
              FateFollows(pool, params, cites, KeySet(s.kept), s.keys, k, fate)
  {
    var i := pool[k];
    assert SectionOk(pool, params, s, i.section);
    assert SectionKeys(pool, s.kept, i.section) ==
           set j | j in KeySet(s.kept) && InSection(pool, j, i.section);
    assert GroupOf(i) !! s.groups <==> !GroupKept(pool, KeySet(s.kept), i);
    assert i.digest in s.digests <==> TextSeen(pool, s.keys, i);
    assert i.episode && !i.failure && !(CitedBy(cites, i) !! s.keys) <==> EpisodeCited(cites, s.keys, i);
  }

  /** A fate once met stays. */
  lemma {:induction false} FatedStays(pool: Pool, params: Params, cites: Citations, s: Selection, order: seq<Key>,
                                      i: nat, k: Key, fate: Fate)
    requires (forall j :: j in order ==> j in pool) && i <= |order| && forall j :: j in order[..i] ==> j in pool
    requires k in Fated(pool, params, cites, s, order[..i], fate)
    ensures k in Fated(pool, params, cites, s, order, fate)
  {
    if i == |order| {
      assert order[..i] == order;
    } else {
      PrefixElements(order);
      PrefixOfPrefix(order, i);
      FatedStays(pool, params, cites, s, order[..|order| - 1], i, k, fate);
    }
  }

  /** Up to a turn the fates are those of the candidates before it. */
  lemma FatedBefore(pool: Pool, params: Params, cites: Citations, conflicts: set<Conflict>, s: Selection,
                    order: seq<Key>, i: nat, fate: Fate)
    requires Loose(pool, conflicts, order) && i <= |order| && forall j :: j in order[..i] ==> j in pool
    ensures Fated(pool, params, cites, s, order[..i], fate) ==
              set j | j in Fated(pool, params, cites, s, order, fate) && j in order[..i]
  {
    forall j ensures j in Fated(pool, params, cites, s, order[..i], fate) <==>
                     j in Fated(pool, params, cites, s, order, fate) && j in order[..i]
    {
      if j in Fated(pool, params, cites, s, order[..i], fate) {
        FatedStays(pool, params, cites, s, order, i, j, fate);
      } else if j in Fated(pool, params, cites, s, order, fate) && j in order[..i] {
        FatedPrefix(pool, params, cites, conflicts, s, order, i, j, fate);
      }
    }
  }

  lemma LoosePart(pool: Pool, conflicts: set<Conflict>, order: seq<Key>, i: nat)
    requires Loose(pool, conflicts, order) && i <= |order|
    ensures Loose(pool, conflicts, order[..i]) && (forall j :: j in order[..i] ==> j in pool)
    ensures i < |order| ==> order[i] in pool && order[i] !in order[..i] && order[i] !in Members(conflicts)
  {
    if i < |order| {
      assert order[i] in order;
    }
  }

  /** The fate of the i-th candidate follows from what was kept and seen before. */
  lemma FateAtTurn(pool: Pool, params: Params, cites: Citations, conflicts: set<Conflict>, s: Selection,
                   order: seq<Key>, i: nat, fate: Fate)
    requires Loose(pool, conflicts, order) && i < |order| && TakeOk(pool, params, conflicts, s)
    requires Noticed(pool, s, {}) && OnlyMembers(conflicts, s)
    ensures forall j :: j in order[..i] ==> j in pool
    ensures order[i] in pool
    ensures var kept := KeySet(s.kept) + Fated(pool, params, cites, s, order[..i], Kept);
            order[i] in Fated(pool, params, cites, s, order, fate) <==>
              FateFollows(pool, params, cites, kept, kept + Fated(pool, params, cites, s, order[..i], OverBudget),
                          order[i], fate)
  {
    LoosePart(pool, conflicts, order, i);
    var t := TakeAll(pool, params, cites, s, order[..i]);
    LoopNotices(pool, params, cites, s, order[..i]);
    TakeAllKeeps(pool, params, cites, conflicts, s, order[..i]);
    KeptAreFated(pool, params, cites, conflicts, s, order[..i]);
    var kept, over := KeySet(s.kept) + Fated(pool, params, cites, s, order[..i], Kept),
                      Fated(pool, params, cites, s, order[..i], OverBudget);
    assert KeySet(t.kept) == kept;
    assert order[i] !in t.keys;
    FateIs(pool, params, cites, t, over, order[i], fate);
    FatedInTurn(pool, params, cites, conflicts, s, order, i, fate);
  }

  lemma FatedInTurn(pool: Pool, params: Params, cites: Citations, conflicts: set<Conflict>, s: Selection,
                    order: seq<Key>, i: nat, fate: Fate)
    requires Loose(pool, conflicts, order) && i < |order| && order[i] in pool
    requires forall j :: j in order[..i] ==> j in pool
    ensures order[i] in Fated(pool, params, cites, s, order, fate) <==>
              FateOf(pool, params, cites, TakeAll(pool, params, cites, s, order[..i]), order[i]) == fate
  {
    LoosePart(pool, conflicts, order, i);
    LoosePart(pool, conflicts, order, i + 1);
    FatedBefore(pool, params, cites, conflicts, s, order, i + 1, fate);
    assert order[..i + 1][..i] == order[..i] && order[..i + 1][i] == order[i] && order[i] in order[..i + 1];
  }

  // ---------------------------------------------------------------- the fates of a composition

  /** Kept before k's turn: the members of admitted conflicts, and the better candidates that were kept. */
  ghost function KeptBefore(x: Inputs, k: Key): set<Key>
    requires InputsOk(x)
  {
    KeySet(Admitted(x).kept) + set j | j in FatedIn(x, Kept) && Better(x.candidates, j, k)
  }

  /** Seen before k's turn are also the better candidates for which their section had no room. */
  ghost function SeenBefore(x: Inputs, k: Key): set<Key>
    requires InputsOk(x)
  {
    KeptBefore(x, k) + set j | j in FatedIn(x, OverBudget) && Better(x.candidates, j, k)
  }

  /** What becomes of a candidate outside the conflicts follows from the better ones and from the admitted conflicts. */
  lemma FateMeans(x: Inputs, k: Key, fate: Fate)
    requires InputsOk(x) && k in x.candidates && k !in Members(x.conflicts)
    ensures k in FatedIn(x, fate) <==>
              FateFollows(x.candidates, x.params, x.cites, KeptBefore(x, k), SeenBefore(x, k), k, fate)
  {
    assert k in Others(x);
    var i :| 0 <= i < |Others(x)| && Others(x)[i] == k;
    FateOfTurn(x, i, fate);
  }

  lemma FateOfTurn(x: Inputs, i: nat, fate: Fate)
    requires InputsOk(x) && i < |Others(x)|
    ensures Others(x)[i] in x.candidates
    ensures var k := Others(x)[i];
            k in FatedIn(x, fate) <==>
              FateFollows(x.candidates, x.params, x.cites, KeptBefore(x, k), SeenBefore(x, k), k, fate)
  {
    OthersLoose(x);
    LoosePart(x.candidates, x.conflicts, Others(x), i);
    AdmittedTakeOk(x);
    AdmittedFacts(x);
    AdmittedNoticed(x);
    FateAtTurn(x.candidates, x.params, x.cites, x.conflicts, Admitted(x), Others(x), i, fate);
    KeptInTurn(x, i);
    BeforeAre(x, i, OverBudget);
  }

  lemma KeptInTurn(x: Inputs, i: nat)
    requires InputsOk(x) && i < |Others(x)| && Loose(x.candidates, x.conflicts, Others(x))
    requires forall j :: j in Others(x)[..i] ==> j in x.candidates
    ensures KeySet(Admitted(x).kept) + Fated(x.candidates, x.params, x.cites, Admitted(x), Others(x)[..i], Kept) ==
            KeptBefore(x, Others(x)[i])
  {
    BeforeAre(x, i, Kept);
  }

  lemma BeforeAre(x: Inputs, i: nat, fate: Fate)
    requires InputsOk(x) && i < |Others(x)| && Loose(x.candidates, x.conflicts, Others(x))
    requires forall j :: j in Others(x)[..i] ==> j in x.candidates
    ensures Fated(x.candidates, x.params, x.cites, Admitted(x), Others(x)[..i], fate) ==
              set j | j in FatedIn(x, fate) && Better(x.candidates, j, Others(x)[i])
  {
    FatedBefore(x.candidates, x.params, x.cites, x.conflicts, Admitted(x), Others(x), i, fate);
    forall j | j in FatedIn(x, fate) ensures j in Others(x)[..i] <==> Better(x.candidates, j, Others(x)[i]) {
      EarlierIsBetter(x, i, j);
    }
    BetterOnes(x.candidates, FatedIn(x, fate), Others(x)[..i], Others(x)[i]);
  }

  lemma BetterOnes(pool: Pool, fated: set<Key>, before: seq<Key>, k: Key)
    requires forall j :: j in fated ==> (j in before <==> Better(pool, j, k))
    ensures (set j | j in fated && j in before) == set j | j in fated && Better(pool, j, k)
  {
  }

  lemma EarlierIsBetter(x: Inputs, i: nat, j: Key)
    requires InputsOk(x) && i < |Others(x)| && j in Others(x)
    ensures j in Others(x)[..i] <==> Better(x.candidates, j, Others(x)[i])
  {
    assert Others(x)[i] in Others(x);
    SameRanking(x);
    RankingStrictTotal(x.candidates);
    EarlierRanksAbove(Ranking(x.candidates), Others(x), i, j);
    RankingMeans(x.candidates, j, Others(x)[i]);
  }

  lemma EarlierRanksAbove(less: (Key, Key) -> bool, order: seq<Key>, i: nat, j: Key)
    requires StrictTotal(less) && SortedBy(less, order) && i < |order| && j in order
    ensures j in order[..i] <==> less(j, order[i])
  {
    if j in order[..i] {
      var b :| 0 <= b < i && order[..i][b] == j;
      assert order[b] == j;
    }
    if less(j, order[i]) {
      var a :| 0 <= a < |order| && order[a] == j;
      assert a < i && order[..i][a] == j;
    }
  }
}
