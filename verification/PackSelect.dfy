/**
 * Selecting candidates for a pack: whole conflict sets first, then everything else in order of rank, within budgets.
 */
module PackSelect {
  import opened Order
  import opened Sorting
  import opened PackModel
  import opened PackSettle

  datatype Params = Params(budget: Section -> nat, maxItems: nat, maxPackBytes: nat)

  datatype Diagnostics = Diagnostics(deduplicated: nat, citedEpisode: nat, sectionBudget: nat, totalItems: nat,
                                     packBytes: nat,
                                     conflictSets: nat)

  /** Everything compose changes while it selects: `live` are the conflict sets still to be shown. */
  datatype Selection = Selection(
    kept: seq<Key>,
    live: set<Conflict>,
    keys: set<Key>,
    digests: map<string, Key>,
    groups: set<string>,
    counts: map<Section, nat>,
    alsoMatched: map<Key, seq<Key>>,
    diag: Diagnostics)

  const NO_DIAGNOSTICS := Diagnostics(0, 0, 0, 0, 0, 0)

  function Nothing(conflicts: set<Conflict>): Selection {
    Selection([], conflicts, {}, map[], {}, map[], map[], NO_DIAGNOSTICS)
  }

  function CountOf(s: Selection, section: Section): nat { if section in s.counts then s.counts[section] else 0 }

  function GroupOf(i: Item): set<string> { if i.group.Some? then {i.group.value} else {} }

  // ---------------------------------------------------------------- conflict sets

  function Admit(pool: Pool, s: Selection, k: Key): Selection
    requires k in pool
  {
    var i := pool[k];
    s.(kept := s.kept + [k], keys := s.keys + {k},
       digests := if i.digest in s.digests then s.digests else s.digests[i.digest := k],
       counts := s.counts[i.section := CountOf(s, i.section) + 1],
       groups := s.groups + GroupOf(i))
  }

  function AdmitAll(pool: Pool, s: Selection, ks: seq<Key>): Selection
    requires forall k :: k in ks ==> k in pool
  {
    if ks == [] then s else Admit(pool, AdmitAll(pool, s, ks[..|ks| - 1]), ks[|ks| - 1])
  }

  /** The members of a set that are not shown yet, sorted by key. */
  ghost function Missing(s: Selection, c: Conflict): seq<Key> {
    StrLessStrictTotal();
    Arranged(StrLess, c.members - s.keys)
  }

  predicate Fits(params: Params, s: Selection, n: nat) {
    CountOf(s, CONFLICTS_AND_STALE) + n <= params.budget(CONFLICTS_AND_STALE)
  }

  function DropSet(s: Selection, c: Conflict): Selection {
    s.(live := s.live - {c}, diag := s.diag.(conflictSets := s.diag.conflictSets + 1))
  }

  ghost function AdmitSet(pool: Pool, params: Params, s: Selection, c: Conflict): Selection
    requires c.members <= pool.Keys
  {
    if Fits(params, s, |Missing(s, c)|) then AdmitAll(pool, s, Missing(s, c)) else DropSet(s, c)
  }

  ghost function AdmitSets(pool: Pool, params: Params, s: Selection, order: seq<Conflict>): Selection
    requires forall c :: c in order ==> c.members <= pool.Keys
  {
    if order == [] then s
    else AdmitSet(pool, params, AdmitSets(pool, params, s, order[..|order| - 1]), order[|order| - 1])
  }

  // ---------------------------------------------------------------- all other candidates

  /** The keys that cite an episode, by the episode's reference. */
  type Citations = map<string, set<Key>>

  function CitedBy(cites: Citations, i: Item): set<Key> {
    if i.ref.Some? && i.ref.value in cites then cites[i.ref.value] else {}
  }

  datatype Fate = Kept | Duplicate | SameText | Cited | OverBudget

  /** What becomes of a candidate outside every conflict when its turn comes. */
  function FateOf(pool: Pool, params: Params, cites: Citations, s: Selection, k: Key): Fate
    requires k in pool
  {
    var i := pool[k];
    if k in s.keys || !(GroupOf(i) !! s.groups) then Duplicate
    else if i.digest in s.digests then SameText
    else if i.episode && !i.failure && !(CitedBy(cites, i) !! s.keys) then Cited
    else if CountOf(s, i.section) >= params.budget(i.section) then OverBudget
    else Kept
  }

  function Matched(s: Selection, k: Key, d: string): Selection
    requires d in s.digests
  {
    var owner := s.digests[d];
    var before := if owner in s.alsoMatched then s.alsoMatched[owner] else [];
    s.(alsoMatched := s.alsoMatched[owner := before + [k]], diag := s.diag.(deduplicated := s.diag.deduplicated + 1))
  }

  /** The text and the key count as seen even when the section is full. */
  function Seen(s: Selection, k: Key, d: string): Selection { s.(keys := s.keys + {k}, digests := s.digests[d := k]) }

  function Place(pool: Pool, s: Selection, k: Key): Selection
    requires k in pool
  {
    var i := pool[k];
    Seen(s, k, i.digest).(kept := s.kept + [k], counts := s.counts[i.section := CountOf(s, i.section) + 1],
                          groups := s.groups + GroupOf(i))
  }

  function Take(pool: Pool, params: Params, cites: Citations, s: Selection, k: Key): Selection
    requires k in pool
  {
    match FateOf(pool, params, cites, s, k)
    case Duplicate => s.(diag := s.diag.(deduplicated := s.diag.deduplicated + 1))
    case SameText => Matched(s, k, pool[k].digest)
    case Cited => s.(diag := s.diag.(citedEpisode := s.diag.citedEpisode + 1))
    case OverBudget => Seen(s, k, pool[k].digest).(diag := s.diag.(sectionBudget := s.diag.sectionBudget + 1))
    case Kept => Place(pool, s, k)
  }

  /** The main loop: candidates in order of rank, without the members of conflicts. */
  function TakeAll(pool: Pool, params: Params, cites: Citations, s: Selection, order: seq<Key>): Selection
    requires forall k :: k in order ==> k in pool
  {
    if order == [] then s
    else Take(pool, params, cites, TakeAll(pool, params, cites, s, order[..|order| - 1]), order[|order| - 1])
  }

  // ---------------------------------------------------------------- what the selection keeps true

  function SectionKeys(pool: Pool, kept: seq<Key>, section: Section): set<Key> {
    set k | k in kept && k in pool && pool[k].section == section
  }

  /** No key twice, and exact counts within the budgets. */
  ghost predicate WithinBudgets(pool: Pool, params: Params, s: Selection) {
    && (forall i, j :: 0 <= i < j < |s.kept| ==> s.kept[i] != s.kept[j])
    && (forall k :: k in s.kept ==> k in pool && k in s.keys)
    && (forall section: Section :: SectionOk(pool, params, s, section))
  }

  ghost predicate SectionOk(pool: Pool, params: Params, s: Selection, section: Section) {
    CountOf(s, section) == |SectionKeys(pool, s.kept, section)| && CountOf(s, section) <= params.budget(section)
  }

  /** Outside the conflicts, a kept item is the one that its text is remembered by. */
  ghost predicate TextsOwned(pool: Pool, conflicts: set<Conflict>, s: Selection) {
    forall k :: k in s.kept && k !in Members(conflicts) ==>
      k in pool && pool[k].digest in s.digests && s.digests[pool[k].digest] == k
  }

  /** The sets that have had their turn are whole if live, and every kept conflict member is in one of them. */
  ghost predicate SetsWhole(conflicts: set<Conflict>, s: Selection, order: seq<Conflict>) {
    && s.live <= conflicts
    && (forall c :: c in order && c in s.live ==> c.members <= KeySet(s.kept))
    && (forall k :: k in s.kept && k in Members(conflicts) ==> exists c :: c in order && c in s.live && k in c.members)
  }

  /** What evaluate has done to the members of every conflict. */
  ghost predicate Demoted(pool: Pool, conflicts: set<Conflict>) {
    && ConflictsOk(pool, conflicts)
    && (forall k :: k in Members(conflicts) ==>
        k in pool && pool[k].section == CONFLICTS_AND_STALE && "conflict" in pool[k].flags)
  }

  lemma AdmitKeepsBudgets(pool: Pool, params: Params, s: Selection, k: Key)
    requires WithinBudgets(pool, params, s) && k in pool && k !in s.keys
    requires CountOf(s, pool[k].section) < params.budget(pool[k].section)
    ensures WithinBudgets(pool, params, Admit(pool, s, k)) && WithinBudgets(pool, params, Place(pool, s, k))
  {
    forall section: Section
      ensures SectionOk(pool, params, Admit(pool, s, k), section) && SectionOk(pool, params, Place(pool, s, k), section)
    {
      assert SectionOk(pool, params, s, section);
      OneMoreInSection(pool, s.kept, k, section);
    }
  }

  lemma OneMoreInSection(pool: Pool, kept: seq<Key>, k: Key, section: Section)
    requires k in pool && k !in kept
    ensures |SectionKeys(pool, kept + [k], section)| ==
              |SectionKeys(pool, kept, section)| + if section == pool[k].section then 1 else 0
  {
    assert forall j :: j in kept + [k] <==> j in kept || j == k;
    assert SectionKeys(pool, kept + [k], section) ==
           SectionKeys(pool, kept, section) + if section == pool[k].section then {k} else {};
  }

  /** What the admission of a whole row of members adds. */
  lemma {:induction false} AdmitAllAdds(pool: Pool, s: Selection, ks: seq<Key>)
    requires forall k :: k in ks ==> k in pool && pool[k].section == CONFLICTS_AND_STALE
    ensures AdmitAll(pool, s, ks).kept == s.kept + ks && AdmitAll(pool, s, ks).keys == s.keys + KeySet(ks)
    ensures CountOf(AdmitAll(pool, s, ks), CONFLICTS_AND_STALE) == CountOf(s, CONFLICTS_AND_STALE) + |ks|
    ensures AdmitAll(pool, s, ks).live == s.live && AdmitAll(pool, s, ks).diag == s.diag
  {
    if ks != [] {
      var most, last := ks[..|ks| - 1], ks[|ks| - 1];
      assert last in ks && ks == most + [last];
      AdmitAllAdds(pool, s, most);
      assert KeySet(ks) == KeySet(most) + {last};
    }
  }

  lemma {:induction false} AdmitAllFacts(pool: Pool, params: Params, s: Selection, ks: seq<Key>)
    requires WithinBudgets(pool, params, s) && Fits(params, s, |ks|)
    requires forall i, j :: 0 <= i < j < |ks| ==> ks[i] != ks[j]
    requires forall k :: k in ks ==> k in pool && k !in s.keys && pool[k].section == CONFLICTS_AND_STALE
    ensures WithinBudgets(pool, params, AdmitAll(pool, s, ks))
  {
    if ks != [] {
      var most, last := ks[..|ks| - 1], ks[|ks| - 1];
      assert last in ks && last !in most;
      AdmitAllFacts(pool, params, s, most);
      AdmitAllAdds(pool, s, most);
      AdmitKeepsBudgets(pool, params, AdmitAll(pool, s, most), last);
    }
  }

  /** While only conflict sets have been admitted, exactly the kept items have been seen. */
  ghost predicate OnlyMembers(conflicts: set<Conflict>, s: Selection) {
    s.keys == KeySet(s.kept) && s.keys <= Members(conflicts)
  }

  lemma MissingFacts(s: Selection, c: Conflict)
    ensures Elements(Missing(s, c), c.members - s.keys)
    ensures forall i, j :: 0 <= i < j < |Missing(s, c)| ==> Missing(s, c)[i] != Missing(s, c)[j]
  {
    StrLessStrictTotal();
    assert SortedBy(StrLess, Missing(s, c));
  }

  lemma WholeAfterAdmit(conflicts: set<Conflict>, s: Selection, t: Selection, done: seq<Conflict>, c: Conflict,
                        ks: seq<Key>)
    requires SetsWhole(conflicts, s, done) && OnlyMembers(conflicts, s) && c in conflicts && c in s.live
    requires Elements(ks, c.members - s.keys) && t.kept == s.kept + ks && t.live == s.live
    requires t.keys == s.keys + KeySet(ks)
    ensures SetsWhole(conflicts, t, done + [c]) && OnlyMembers(conflicts, t)
  {
    assert forall k :: k in t.kept <==> k in s.kept || k in ks;
    assert forall d :: d in done + [c] <==> d in done || d == c;
    forall k | k in t.kept && k in Members(conflicts)
      ensures exists d :: d in done + [c] && d in t.live && k in d.members
    {
      if k in ks {
        assert c in done + [c] && k in c.members;
      } else {
        var d :| d in done && d in s.live && k in d.members;
        assert d in done + [c];
      }
    }
  }

  lemma WholeAfterDrop(conflicts: set<Conflict>, s: Selection, done: seq<Conflict>, c: Conflict)
    requires SetsWhole(conflicts, s, done) && OnlyMembers(conflicts, s) && c !in done
    ensures SetsWhole(conflicts, DropSet(s, c), done + [c]) && OnlyMembers(conflicts, DropSet(s, c))
  {
    var t := DropSet(s, c);
    assert forall d :: d in done + [c] <==> d in done || d == c;
    forall k | k in t.kept && k in Members(conflicts)
      ensures exists d :: d in done + [c] && d in t.live && k in d.members
    {
      var d :| d in done && d in s.live && k in d.members;
      assert d in done + [c] && d != c;
    }
  }

  lemma DropKeepsBudgets(pool: Pool, params: Params, s: Selection, c: Conflict)
    requires WithinBudgets(pool, params, s)
    ensures WithinBudgets(pool, params, DropSet(s, c))
  {
    forall section: Section ensures SectionOk(pool, params, DropSet(s, c), section) {
      assert SectionOk(pool, params, s, section);
    }
  }

  lemma AdmitSetFacts(pool: Pool, params: Params, conflicts: set<Conflict>, s: Selection, done: seq<Conflict>,
                      c: Conflict)
    requires Demoted(pool, conflicts) && c in conflicts && c in s.live && c !in done
    requires WithinBudgets(pool, params, s) && OnlyMembers(conflicts, s) && SetsWhole(conflicts, s, done)
    ensures WithinBudgets(pool, params, AdmitSet(pool, params, s, c))
    ensures OnlyMembers(conflicts, AdmitSet(pool, params, s, c))
    ensures SetsWhole(conflicts, AdmitSet(pool, params, s, c), done + [c])
    ensures AdmitSet(pool, params, s, c).live >= s.live - {c}
  {
    var ks := Missing(s, c);
    if Fits(params, s, |ks|) {
      MissingFacts(s, c);
      assert forall k :: k in c.members ==> k in Members(conflicts);
      AdmitAllFacts(pool, params, s, ks);
      AdmitAllAdds(pool, s, ks);
      WholeAfterAdmit(conflicts, s, AdmitAll(pool, s, ks), done, c, ks);
    } else {
      WholeAfterDrop(conflicts, s, done, c);
      DropKeepsBudgets(pool, params, s, c);
    }
  }

  lemma {:induction false} AdmitSetsFacts(pool: Pool, params: Params, conflicts: set<Conflict>, order: seq<Conflict>)
    requires Demoted(pool, conflicts) && (forall c :: c in order ==> c in conflicts)
    requires forall i, j :: 0 <= i < j < |order| ==> order[i] != order[j]
    ensures var s := AdmitSets(pool, params, Nothing(conflicts), order);
            && WithinBudgets(pool, params, s) && OnlyMembers(conflicts, s) && SetsWhole(conflicts, s, order)
            && forall c :: c in conflicts && c !in order ==> c in s.live
  {
    if order == [] {
      forall section: Section ensures SectionOk(pool, params, Nothing(conflicts), section) {
        assert SectionKeys(pool, [], section) == {};
      }
    } else {
      var most, last := order[..|order| - 1], order[|order| - 1];
      assert last in order && order == most + [last] && last !in most;
      AdmitSetsFacts(pool, params, conflicts, most);
      AdmitSetFacts(pool, params, conflicts, AdmitSets(pool, params, Nothing(conflicts), most), most, last);
    }
  }

  /** After the admission of all sets, every live one is whole, so settling finds nothing to do. */
  lemma AdmittedIsSettled(pool: Pool, params: Params, conflicts: set<Conflict>, order: seq<Conflict>)
    requires Demoted(pool, conflicts) && Elements(order, conflicts)
    requires forall i, j :: 0 <= i < j < |order| ==> order[i] != order[j]
    ensures var s := AdmitSets(pool, params, Nothing(conflicts), order);
            && (forall c :: c in s.live ==> c.members <= KeySet(s.kept))
            && (forall k :: k in s.kept ==> k in Members(s.live))
            && SettledKept(s.kept, s.live) == s.kept && SettledLive(s.kept, s.live) == s.live
  {
    AdmitSetsFacts(pool, params, conflicts, order);
    var s := AdmitSets(pool, params, Nothing(conflicts), order);
    SettleWhole(s.kept, s.live);
  }
}
