/** What a caller of compose gets: the shown items and their standing, told by what was put in. */
module PackAnswer {
  import opened PackModel
  import opened PackSelect
  import opened PackEvaluate
  import opened PackCompose
  import opened PackComposer
  import opened PackGuarantees
  import opened PackItems
  import opened PackRows
  import opened ExperiencePack
  import opened Wrappers

  /** A candidate is cited by the sources of derived_from relations that lead to it as an episode. */
  lemma CitesMean(edges: seq<Edge>, i: Item, k: Key)
    ensures k in CitedBy(CitationsOf(edges), i) <==>
              exists e :: e in edges && e.relation == "derived_from" && e.target.kind == "episode" && e.source.key == k
                          && i.ref == Some("episode:" + e.target.key)
  {
    assert forall e: Edge :: e.target.kind == "episode" ==> Ref(e.target) == "episode:" + e.target.key;
    forall e | e in edges && e.relation == "derived_from" && e.target.kind == "episode" && e.source.key == k
      ensures i.ref == Some("episode:" + e.target.key) ==> k in CitedBy(CitationsOf(edges), i)
    {
      var ref := Ref(e.target);
      assert CitesEpisode(e, ref);
      assert ref in EpisodeRefs(edges) && k in Citing(edges, ref);
    }
    if k in CitedBy(CitationsOf(edges), i) {
      assert i.ref.Some? && k in Citing(edges, i.ref.value);
      var e :| e in edges && CitesEpisode(e, i.ref.value) && e.source.key == k;
      assert i.ref == Some("episode:" + e.target.key);
    }
  }

  /** An experience pack is composed under the given setting, of the listed candidates as evaluation leaves them. */
  lemma ComposedUnderSetting(listed: Listing, s: Setting)
    requires KeysDistinct(listed) && SettingOk(PoolOf(listed), s)
    ensures var x := InputsOf(PoolOf(listed), KeysOf(listed), s);
            && x.candidates.Keys == PoolOf(listed).Keys && (forall p :: p in listed ==> p.0 in x.candidates)
            && x.conflicts == FiledConflicts(PoolOf(listed), KeysOf(listed), s)
            && x.params == s.params && x.name == s.name && x.rawAllowed == s.rawAllowed && x.rows == s.rows
            && x.bytes == s.bytes && x.cites == CitationsOf(s.edges)
  {
    var x := InputsOf(PoolOf(listed), KeysOf(listed), s);
    assert x.candidates.Keys == PoolOf(listed).Keys;
    forall p | p in listed ensures p.0 in x.candidates {
    }
  }

  lemma ListedIs(listed: Listing, n: nat)
    requires KeysDistinct(listed) && n < |listed|
    ensures listed[n].0 in PoolOf(listed) && PoolOf(listed)[listed[n].0] == listed[n].1
  {
    assert listed[n] in listed;
  }

  /**
   * The n-th shown item is the listed candidate of that key, with the standing that the premises, the relations and the
   * filed conflicts leave it; or it is the item that the raw row of that key makes.
   */
  lemma ShownItemIs(listed: Listing, s: Setting, n: nat)
    requires KeysDistinct(listed) && SettingOk(PoolOf(listed), s) && n < |PackFor(listed, s).selection.kept|
    ensures |PackFor(listed, s).items| == |PackFor(listed, s).selection.kept|
    ensures var k, j := PackFor(listed, s).selection.kept[n], PackFor(listed, s).items[n];
            || Became(PoolOf(listed), s.edges, s.requested, FiledConflicts(PoolOf(listed), KeysOf(listed), s), k, j)
            || (s.rows.Some? && k in s.rows.value && s.rows.value[k].item == Some(j))
  {
    var pool, order := PoolOf(listed), KeysOf(listed);
    var x := InputsOf(pool, order, s);
    KeysListed(listed);
    InputsAreOk(pool, order, s);
    ShownAreItems(x);
    var k := Composed(x).kept[n];
    assert k in Composed(x).kept;
    ItemBecame(pool, order, s, k);
  }

  lemma ItemBecame(pool: Pool, order: seq<Key>, s: Setting, k: Key)
    requires SettingOk(pool, s) && InputsOk(InputsOf(pool, order, s)) && k in AllItems(InputsOf(pool, order, s))
    ensures var j := AllItems(InputsOf(pool, order, s))[k];
            || Became(pool, s.edges, s.requested, FiledConflicts(pool, order, s), k, j)
            || (s.rows.Some? && k in s.rows.value && s.rows.value[k].item == Some(j))
  {
    var x := InputsOf(pool, order, s);
    if k in x.candidates {
      ItemsBySource(x, k);
      ItemMeans(pool, s.edges, s.requested, FiledConflicts(pool, order, s), k);
    } else {
      RawItem(x, k);
    }
  }
}
