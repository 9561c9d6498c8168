/** From the list of gated candidates to the finished pack, and why the order of the list cannot matter. */
module ExperiencePack {
  import opened PackModel
  import opened PackEvaluate
  import opened PackFiling
  import opened PackEvaluator
  import opened Sorting
  import opened PackSelect
  import opened PackCompose
  import opened PackComposer
  import opened Wrappers

  /** What compose is given, besides the candidates. */
  datatype Setting = Setting(edges: seq<Edge>, requested: Premises, params: Params, name: Naming, rawAllowed: bool,
                             rows: Option<Rows>, bytes: Selection -> nat)

  /** Candidates by memory key, as the readers list them. */
  type Listing = seq<(Key, Item)>

  predicate KeysDistinct(listed: Listing) {
    forall i, j :: 0 <= i < j < |listed| ==> listed[i].0 != listed[j].0
  }

  /** The candidates as a map. */
  function PoolOf(listed: Listing): Pool
    requires KeysDistinct(listed)
  {
    map p | p in listed :: p.0 := p.1
  }

  function KeysOf(listed: Listing): seq<Key> { seq(|listed|, i requires 0 <= i < |listed| => listed[i].0) }

  predicate CitesEpisode(e: Edge, ref: string) {
    e.relation == "derived_from" && e.target.kind == "episode" && Ref(e.target) == ref
  }

  function EpisodeRefs(edges: seq<Edge>): set<string> {
    set e | e in edges && CitesEpisode(e, Ref(e.target)) :: Ref(e.target)
  }

  /** The keys derived from an episode. */
  function Citing(edges: seq<Edge>, ref: string): set<Key> {
    set e | e in edges && CitesEpisode(e, ref) :: e.source.key
  }

  function CitationsOf(edges: seq<Edge>): Citations {
    map ref | ref in EpisodeRefs(edges) :: Citing(edges, ref)
  }

  ghost function FiledConflicts(pool: Pool, order: seq<Key>, s: Setting): set<Conflict> {
    ConflictsOf(FiledSets(pool, order, s.edges, s.name))
  }

  ghost function InputsOf(pool: Pool, order: seq<Key>, s: Setting): Inputs {
    var filed := FiledConflicts(pool, order, s);
    Inputs(Evaluated(pool, s.edges, s.requested, filed), filed, s.name, CitationsOf(s.edges), s.params, s.rawAllowed,
           s.rows, s.bytes)
  }

  /** Memory keys are distinct across candidates and raw rows, and only raw rows make raw evidence. */
  ghost predicate SettingOk(pool: Pool, s: Setting) {
    && RefsDistinct(pool)
    && (forall k :: k in pool ==> pool[k].section != RAW_EVIDENCE)
    && (s.rows.Some? ==>
          && s.rows.value.Keys !! pool.Keys
          && forall k :: k in RawItems(s.rows.value) ==> RawItems(s.rows.value)[k].section == RAW_EVIDENCE)
  }

  lemma InputsAreOk(pool: Pool, order: seq<Key>, s: Setting)
    requires SettingOk(pool, s) && Elements(order, pool.Keys)
    ensures InputsOk(InputsOf(pool, order, s))
  {
    var x := InputsOf(pool, order, s);
    FiledOnce(pool, order, s.edges, s.name);
    EvaluatedIsDemoted(pool, s.edges, s.requested, x.conflicts);
    forall k | k in x.candidates ensures x.candidates[k].section != RAW_EVIDENCE {
      EvaluationGivesNoAuthority(pool, s.edges, s.requested, x.conflicts, k);
    }
  }

  method BuildPool(listed: Listing) returns (pool: Pool, order: seq<Key>)
    requires KeysDistinct(listed)
    ensures pool == PoolOf(listed) && order == KeysOf(listed)
  {
    pool, order := map[], [];
    for i := 0 to |listed|
      invariant order == KeysOf(listed[..i])
      invariant pool == PoolOf(listed[..i])
    {
      assert listed[..i + 1] == listed[..i] + [listed[i]];
      pool, order := pool[listed[i].0 := listed[i].1], order + [listed[i].0];
    }
    assert listed[..|listed|] == listed;
  }

  lemma KeysListed(listed: Listing)
    requires KeysDistinct(listed)
    ensures Elements(KeysOf(listed), PoolOf(listed).Keys)
  {
    forall k ensures k in KeysOf(listed) <==> k in PoolOf(listed) {
      if k in KeysOf(listed) {
        var i :| 0 <= i < |listed| && KeysOf(listed)[i] == k;
        assert listed[i] in listed;
      }
      if k in PoolOf(listed) {
        var i :| 0 <= i < |listed| && listed[i].0 == k;
        assert KeysOf(listed)[i] == k;
      }
    }
  }

  method BuildCitations(edges: seq<Edge>) returns (cites: Citations)
    ensures cites == CitationsOf(edges)
  {
    cites := map[];
    for i := 0 to |edges|
      invariant cites.Keys == EpisodeRefs(edges[..i])
      invariant forall ref :: ref in cites ==> cites[ref] == Citing(edges[..i], ref)
    {
      var e := edges[i];
      OneMoreCitation(edges[..i], e);
      assert edges[..i + 1] == edges[..i] + [e];
      if e.relation == "derived_from" && e.target.kind == "episode" {
        var ref := Ref(e.target);
        cites := cites[ref := (if ref in cites then cites[ref] else {}) + {e.source.key}];
      }
    }
    assert edges[..|edges|] == edges;
  }

  lemma OneMoreCitation(edges: seq<Edge>, e: Edge)
    ensures forall ref ::
              Citing(edges + [e], ref) == Citing(edges, ref) + (if CitesEpisode(e, ref) then {e.source.key} else {})
    ensures EpisodeRefs(edges + [e]) ==
              EpisodeRefs(edges) + (if CitesEpisode(e, Ref(e.target)) then {Ref(e.target)} else {})
    ensures forall ref :: ref !in EpisodeRefs(edges) ==> Citing(edges, ref) == {}
  {
    assert forall x :: x in edges + [e] <==> x in edges || x == e;
  }

  /** What compose returns for a list of candidates. */
  ghost function PackFor(listed: Listing, s: Setting): Pack
    requires KeysDistinct(listed) && SettingOk(PoolOf(listed), s)
  {
    KeysListed(listed);
    InputsAreOk(PoolOf(listed), KeysOf(listed), s);
    PackOf(InputsOf(PoolOf(listed), KeysOf(listed), s))
  }

  /** compose, for candidates in the order in which they happen to be listed. */
  method ComposePack(listed: Listing, s: Setting) returns (pack: Pack)
    requires KeysDistinct(listed) && SettingOk(PoolOf(listed), s)
    ensures pack == PackFor(listed, s)
  {
    var found, order := BuildPool(listed);
    KeysListed(listed);
    InputsAreOk(found, order, s);
    var items, sets := Evaluate(found, order, s.edges, s.requested, s.name);
    var cites := BuildCitations(s.edges);
    var x := Inputs(items, ConflictsOf(sets), s.name, cites, s.params, s.rawAllowed, s.rows, s.bytes);
    assert x == InputsOf(found, order, s);
    var composer := new Composer(x);
    pack := composer.Compose();
  }

  /**
   * Every permutation of the candidates gives the same pack, roles and counters included, unless challenged candidates
   * compete for one conflict key.
   */
  lemma OrderCannotMatter(listed: Listing, permuted: Listing, s: Setting)
    requires KeysDistinct(listed) && multiset(permuted) == multiset(listed) && SettingOk(PoolOf(listed), s)
    requires ChallengesApart(PoolOf(listed), s.edges, s.name)
    ensures KeysDistinct(permuted) && PoolOf(permuted) == PoolOf(listed) && PackFor(permuted, s) == PackFor(listed, s)
  {
    PermutedDistinct(listed, permuted);
    SamePool(listed, permuted);
    KeysListed(listed);
    KeysListed(permuted);
    SameFiledSets(PoolOf(listed), KeysOf(listed), KeysOf(permuted), s.edges, s.name);
  }

  lemma SamePool(listed: Listing, permuted: Listing)
    requires KeysDistinct(listed) && KeysDistinct(permuted) && multiset(permuted) == multiset(listed)
    ensures PoolOf(permuted) == PoolOf(listed)
  {
    SameMultisetElements(permuted, listed);
  }

  /**
   * What is composed is the same for every order of the relations, the encoded size aside, unless relations mark pairs
   * under one conflict key that are not the same pair under the same marker.
   */
  lemma RelationOrderCannotMatter(pool: Pool, order: seq<Key>, s: Setting, permuted: seq<Edge>)
    requires RefsDistinct(pool) && multiset(permuted) == multiset(s.edges) && MarksApart(pool, s.edges, s.name)
    ensures FiledSets(pool, order, permuted, s.name) == FiledSets(pool, order, s.edges, s.name)
    ensures InputsOf(pool, order, s.(edges := permuted)) == InputsOf(pool, order, s)
  {
    SameMultisetElements(permuted, s.edges);
    SameRelationSets(pool, s.edges, permuted, s.name);
    EdgeOrderCannotMatter(pool, s.edges, permuted, s.requested, FiledConflicts(pool, order, s));
    SameCitations(s.edges, permuted);
  }

  lemma PermutedDistinct(listed: Listing, permuted: Listing)
    requires KeysDistinct(listed) && multiset(permuted) == multiset(listed)
    ensures KeysDistinct(permuted)
  {
    forall i, j | 0 <= i < j < |permuted| ensures permuted[i].0 != permuted[j].0 {
      if permuted[i].0 == permuted[j].0 {
        assert permuted[i] in multiset(listed) && permuted[j] in multiset(listed);
        assert permuted[i] == permuted[j];
        TwiceCounted(permuted, i, j);
        OnceCounted(listed, permuted[i]);
      }
    }
  }

  lemma TwiceCounted(s: Listing, i: nat, j: nat)
    requires i < j < |s| && s[i] == s[j]
    ensures multiset(s)[s[i]] >= 2
  {
    assert s == s[..j] + s[j..];
    assert s[i] in s[..j] && s[j] in s[j..];
  }

  lemma {:induction false} OnceCounted(s: Listing, p: (Key, Item))
    requires KeysDistinct(s)
    ensures multiset(s)[p] <= 1
  {
    if s != [] {
      var most, last := s[..|s| - 1], s[|s| - 1];
      OnceCounted(most, p);
      assert s == most + [last];
      if last == p {
        assert p !in most;
      }
    }
  }

  lemma SameCitations(a: seq<Edge>, b: seq<Edge>)
    requires forall e :: e in a <==> e in b
    ensures CitationsOf(a) == CitationsOf(b)
  {
    assert EpisodeRefs(a) == EpisodeRefs(b);
    forall ref ensures Citing(a, ref) == Citing(b, ref) {
    }
  }
}
