/** The candidates of an experience pack, their order of rank, and the conflicts between them. */
module PackModel {
  import opened Order
  import opened Sorting
  import opened Wrappers

  type Key = string
  type Section = s: nat | s < 8

  const CONFLICTS_AND_STALE: Section := 4
  const RAW_EVIDENCE: Section := 7

  /** current_decisions, accepted_procedures and validated_lessons */
  predicate Primary(s: Section) { s < 3 }

  datatype Role = Instruction | Candidate | WarningExample | EvidenceRef | LowTrust | ConflictRole

  datatype Item = Item(
    section: Section,
    tier: int,
    scopeRank: int,
    matched: bool,
    fusion: real,
    recency: int,
    role: Role,
    authoritative: bool,
    flags: set<string>,
    digest: string,
    ref: Option<string>,
    group: Option<string>,
    episode: bool,
    failure: bool,
    challenged: bool,
    subject: Option<string>,
    polarity: Option<string>,
    premises: map<string, set<string>>)

  /** The candidates by memory key. */
  type Pool = map<Key, Item>

  // ---------------------------------------------------------------- order of rank

  datatype Rank = Rank(section: int, tier: int, scope: int, unmatched: int, fusion: real, recency: int, key: Key)

  /** _sort_key: members of a conflict are ranked by structure and key only. */
  function RankOf(pool: Pool, k: Key): Rank {
    if k !in pool then Rank(8, 0, 0, 0, 0.0, 0, k)
    else
      var i := pool[k];
      if "conflict" in i.flags then Rank(i.section, i.tier, i.scopeRank, 0, 0.0, 0, k)
      else Rank(i.section, i.tier, i.scopeRank, if i.matched then -1 else 0, -i.fusion, -i.recency, k)
  }

  predicate Above(a: Rank, b: Rank) {
    if a.section != b.section then a.section < b.section
    else if a.tier != b.tier then a.tier < b.tier
    else if a.scope != b.scope then a.scope < b.scope
    else if a.unmatched != b.unmatched then a.unmatched < b.unmatched
    else if a.fusion != b.fusion then a.fusion < b.fusion
    else if a.recency != b.recency then a.recency < b.recency
    else StrLess(a.key, b.key)
  }

  function Ranking(pool: Pool): (Key, Key) -> bool { (a, b) => Above(RankOf(pool, a), RankOf(pool, b)) }

  /** The rank is a total order, because it ends in the memory key. */
  lemma RankingStrictTotal(pool: Pool)
    ensures StrictTotal(Ranking(pool))
  {
    StrLessStrictTotal();
  }

  // ---------------------------------------------------------------- conflicts

  datatype Conflict = Conflict(reason: string, members: set<Key>)

  /** sorted(members) */
  function SortedKeys(keys: set<Key>): (r: seq<Key>)
    ensures SortedBy(StrLess, r) && Elements(r, keys)
    decreases |keys|
  {
    if keys == {} then []
    else
      StrLessStrictTotal();
      LeastExists(StrLess, keys);
      var k :| k in keys && forall j :: j in keys && j != k ==> StrLess(k, j);
      [k] + SortedKeys(keys - {k})
  }

  predicate Smaller(a: int, b: int) { a < b }

  function TiersOf(pool: Pool, keys: set<Key>): set<int> { set k | k in keys && k in pool :: pool[k].tier }

  /** min() over the authority tiers of the members. */
  function MinTier(pool: Pool, keys: set<Key>): (t: int)
    ensures forall k :: k in keys && k in pool ==> t <= pool[k].tier
    ensures TiersOf(pool, keys) != {} ==> t in TiersOf(pool, keys)
  {
    var tiers := TiersOf(pool, keys);
    assert forall k :: k in keys && k in pool ==> pool[k].tier in tiers;
    if tiers == {} then 0
    else
      LeastExists(Smaller, tiers);
      var t :| t in tiers && forall u :: u in tiers && u != t ==> Smaller(t, u);
      t
  }

  /** _conflict_key: the key under which evaluate files a conflict set. Two sets can have the same. */
  type Naming = Conflict -> string

  /** No two of the sets have the same key. */
  ghost predicate KeysDiffer(name: Naming, conflicts: set<Conflict>) {
    forall c, d :: c in conflicts && d in conflicts && name(c) == name(d) ==> c == d
  }

  /** The last comparison makes the order total; between sets whose keys differ it is never reached. */
  predicate ConflictAbove(pool: Pool, name: Naming, c: Conflict, d: Conflict) {
    var s, t := MinTier(pool, c.members), MinTier(pool, d.members);
    if s != t then s < t
    else if c.reason != d.reason then StrLess(c.reason, d.reason)
    else if name(c) != name(d) then StrLess(name(c), name(d))
    else TupleLess(SortedKeys(c.members), SortedKeys(d.members))
  }

  function Admission(pool: Pool, name: Naming): (Conflict, Conflict) -> bool {
    (c, d) => ConflictAbove(pool, name, c, d)
  }

  lemma AdmissionStrictTotal(pool: Pool, name: Naming)
    ensures StrictTotal(Admission(pool, name))
  {
    StrLessStrictTotal();
    TupleLessStrictTotal();
    forall c, d ensures ConflictAbove(pool, name, c, d) || c == d || ConflictAbove(pool, name, d, c) {
      SameSortedKeys(c.members, d.members);
    }
    forall c, d, e | ConflictAbove(pool, name, c, d) && ConflictAbove(pool, name, d, e)
      ensures ConflictAbove(pool, name, c, e)
    {
      AboveTransitive(pool, name, c, d, e);
    }
  }

  lemma AboveTransitive(pool: Pool, name: Naming, c: Conflict, d: Conflict, e: Conflict)
    requires ConflictAbove(pool, name, c, d) && ConflictAbove(pool, name, d, e)
    ensures ConflictAbove(pool, name, c, e)
  {
    StrLessTransitive(c.reason, d.reason, e.reason);
    StrLessTransitive(name(c), name(d), name(e));
    TupleLessTransitive(SortedKeys(c.members), SortedKeys(d.members), SortedKeys(e.members));
  }

  lemma StrLessTransitive(a: string, b: string, c: string)
    ensures StrLess(a, b) && StrLess(b, c) ==> StrLess(a, c)
    ensures !StrLess(a, a) && !(StrLess(a, b) && StrLess(b, a))
  {
    StrLessStrictTotal();
  }

  lemma TupleLessTransitive(a: seq<string>, b: seq<string>, c: seq<string>)
    ensures TupleLess(a, b) && TupleLess(b, c) ==> TupleLess(a, c)
  {
    TupleLessStrictTotal();
  }

  lemma SameSortedKeys(a: set<Key>, b: set<Key>)
    ensures SortedKeys(a) == SortedKeys(b) ==> a == b
  {
    if SortedKeys(a) == SortedKeys(b) {
      assert forall k :: k in a <==> k in SortedKeys(b);
    }
  }

  /** Every conflict has members, all of them among the candidates. */
  ghost predicate ConflictsOk(pool: Pool, conflicts: set<Conflict>) {
    forall c :: c in conflicts ==> c.members != {} && c.members <= pool.Keys
  }

  function Members(conflicts: set<Conflict>): set<Key> {
    set c, k | c in conflicts && k in c.members :: k
  }
}
