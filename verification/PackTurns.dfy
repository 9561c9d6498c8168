/**
 * What decides each turn of the composition, told by the items: which conflict sets are admitted, what becomes of every
 * other candidate, which raw rows are taken.
 */
module PackTurns {
  import opened Sorting
  import opened PackModel
  import opened PackSettle
  import opened PackSelect
  import opened PackCompose
  import opened PackGuarantees
  import opened PackAccounting
  import opened PackConflicts
  import opened PackOrder

  // ---------------------------------------------------------------- the admission of conflict sets

  ghost predicate LowestTier(pool: Pool, c: Conflict, t: int) {
    && (exists k :: k in c.members && k in pool && pool[k].tier == t)
    && (forall k :: k in c.members && k in pool ==> t <= pool[k].tier)
  }

  ghost predicate SmallerText(a: string, b: string) { exists n :: Precedes(a, b, n) }

  /** The set with the lower lowest tier is tried first, then the smaller reason, then the smaller conflict key. */
  ghost predicate TriedFirst(pool: Pool, name: Naming, c: Conflict, d: Conflict) {
    exists s, t ::
      && LowestTier(pool, c, s) && LowestTier(pool, d, t)
      && (|| s < t
          || (s == t && SmallerText(c.reason, d.reason))
          || (s == t && c.reason == d.reason && SmallerText(name(c), name(d))))
  }

  lemma AdmissionMeans(x: Inputs, a: nat, b: nat)
    requires InputsOk(x) && a < b < |AdmissionOrder(x)|
    ensures TriedFirst(x.candidates, x.name, AdmissionOrder(x)[a], AdmissionOrder(x)[b])
  {
    var c, d := AdmissionOrder(x)[a], AdmissionOrder(x)[b];
    assert c in AdmissionOrder(x) && d in AdmissionOrder(x) && c != d;
    AdmissionStrictTotal(x.candidates, x.name);
    assert ConflictAbove(x.candidates, x.name, c, d);
    LowestIs(x.candidates, c);
    LowestIs(x.candidates, d);
    StrLessMeans(c.reason, d.reason);
    StrLessMeans(x.name(c), x.name(d));
  }

  lemma LowestIs(pool: Pool, c: Conflict)
    requires c.members != {} && c.members <= pool.Keys
    ensures LowestTier(pool, c, MinTier(pool, c.members))
  {
    var k :| k in c.members;
    assert pool[k].tier in TiersOf(pool, c.members);
  }

  /** The members of those of the first i sets that are live. */
  ghost function MembersBefore(order: seq<Conflict>, live: set<Conflict>, i: nat): set<Key>
    requires i <= |order|
  {
    set j, k | 0 <= j < i && order[j] in live && k in order[j].members :: k
  }

  /**
   * A set is admitted exactly if, together with those admitted before it, it has no more members than there is room.
   */
  lemma AdmittedExactlyWhen(x: Inputs, i: nat)
    requires InputsOk(x) && i < |x.conflicts|
    ensures AdmissionOrder(x)[i] in Admitted(x).live <==>
              |MembersBefore(AdmissionOrder(x), Admitted(x).live, i) + AdmissionOrder(x)[i].members| <=
                x.params.budget(4)
    ensures forall k :: k in Admitted(x).kept <==> exists c :: c in Admitted(x).live && k in c.members
  {
    AdmittedFacts(x);
    MembersShown(x.conflicts, Admitted(x));
    assert forall k :: k in Admitted(x).kept <==> k in KeySet(Admitted(x).kept);
    AdmittedIsSettled(x.candidates, x.params, x.conflicts, AdmissionOrder(x));
    LiveExactlyWhen(x.candidates, x.params, x.conflicts, AdmissionOrder(x), i);
  }

  lemma LiveExactlyWhen(pool: Pool, params: Params, conflicts: set<Conflict>, order: seq<Conflict>, i: nat)
    requires Demoted(pool, conflicts) && Elements(order, conflicts) && i < |order|
    requires forall a, b :: 0 <= a < b < |order| ==> order[a] != order[b]
    ensures var live := AdmitSets(pool, params, Nothing(conflicts), order).live;
            order[i] in live <==> |MembersBefore(order, live, i) + order[i].members| <= params.budget(4)
  {
    var live := AdmitSets(pool, params, Nothing(conflicts), order).live;
    assert order[i] in order;
    RefusedIffOverflows(pool, params, conflicts, order, i);
    SeenAtTurn(pool, params, conflicts, order, order[..i], i);
    Together(MembersBefore(order, live, i), order[i].members);
  }

  lemma Together(seen: set<Key>, members: set<Key>)
    ensures |seen + members| == |seen| + |members - seen|
  {
    assert seen + members == seen + (members - seen);
  }

  ghost predicate OverflowsInTurn(pool: Pool, params: Params, conflicts: set<Conflict>, order: seq<Conflict>, i: nat)
    requires i < |order| && forall c :: c in order ==> c.members <= pool.Keys
  {
    PrefixOk(pool, order, i);
    Overflows(params, AdmitSets(pool, params, Nothing(conflicts), order[..i]), order[i])
  }

  lemma PrefixOk(pool: Pool, order: seq<Conflict>, i: nat)
    requires i <= |order| && forall c :: c in order ==> c.members <= pool.Keys
    ensures forall c :: c in order[..i] ==> c in order && c.members <= pool.Keys
  {
  }

  /** A set is live or refused once and for all at its turn. */
  lemma RefusedIffOverflows(pool: Pool, params: Params, conflicts: set<Conflict>, order: seq<Conflict>, i: nat)
    requires i < |order| && (forall c :: c in order ==> c.members <= pool.Keys) && order[i] in conflicts
    requires forall a, b :: 0 <= a < b < |order| ==> order[a] != order[b]
    ensures order[i] !in AdmitSets(pool, params, Nothing(conflicts), order).live <==>
              OverflowsInTurn(pool, params, conflicts, order, i)
  {
    if order[i] !in AdmitSets(pool, params, Nothing(conflicts), order).live {
      var j := RefusedSetDidNotFit(pool, params, Nothing(conflicts), order, order[i]);
      assert i == j;
    }
    if OverflowsInTurn(pool, params, conflicts, order, i) {
      PrefixOk(pool, order, i);
      RefusedAtItsTurn(pool, params, Nothing(conflicts), order, i);
    }
  }

  lemma LiveAtTurn(pool: Pool, params: Params, conflicts: set<Conflict>, order: seq<Conflict>, short: seq<Conflict>,
                   j: nat)
    requires j < |short| <= |order| && short[..j] == order[..j] && short[j] == order[j] && order[j] in conflicts
    requires (forall c :: c in order ==> c.members <= pool.Keys) && (forall c :: c in short ==> c.members <= pool.Keys)
    requires forall a, b :: 0 <= a < b < |order| ==> order[a] != order[b]
    requires forall a, b :: 0 <= a < b < |short| ==> short[a] != short[b]
    ensures order[j] in AdmitSets(pool, params, Nothing(conflicts), short).live <==>
            order[j] in AdmitSets(pool, params, Nothing(conflicts), order).live
  {
    RefusedIffOverflows(pool, params, conflicts, order, j);
    RefusedIffOverflows(pool, params, conflicts, short, j);
  }

  lemma SeenAtTurn(pool: Pool, params: Params, conflicts: set<Conflict>, order: seq<Conflict>, short: seq<Conflict>,
                   i: nat)
    requires Demoted(pool, conflicts) && Elements(order, conflicts) && i < |order| && short == order[..i]
    requires forall a, b :: 0 <= a < b < |order| ==> order[a] != order[b]
    ensures forall c :: c in short ==> c.members <= pool.Keys
    ensures var s := AdmitSets(pool, params, Nothing(conflicts), short);
            var live := AdmitSets(pool, params, Nothing(conflicts), order).live;
            s.keys == MembersBefore(order, live, i) &&
            CountOf(s, CONFLICTS_AND_STALE) == |MembersBefore(order, live, i)|
  {
    PrefixOk(pool, order, i);
    AdmitSetsFacts(pool, params, conflicts, short);
    var s := AdmitSets(pool, params, Nothing(conflicts), short);
    var live := AdmitSets(pool, params, Nothing(conflicts), order).live;
    AllLiveAtTurn(pool, params, conflicts, order, short);
    KeysAtTurn(conflicts, order, live, i, s);
    MembersCounted(pool, params, conflicts, s);
  }

  lemma AllLiveAtTurn(pool: Pool, params: Params, conflicts: set<Conflict>, order: seq<Conflict>, short: seq<Conflict>)
    requires Elements(order, conflicts) && |short| <= |order| && short == order[..|short|]
    requires (forall c :: c in order ==> c.members <= pool.Keys) && (forall c :: c in short ==> c.members <= pool.Keys)
    requires forall a, b :: 0 <= a < b < |order| ==> order[a] != order[b]
    ensures forall j :: 0 <= j < |short| ==>
              (order[j] in AdmitSets(pool, params, Nothing(conflicts), short).live <==>
               order[j] in AdmitSets(pool, params, Nothing(conflicts), order).live)
  {
    forall j | 0 <= j < |short|
      ensures order[j] in AdmitSets(pool, params, Nothing(conflicts), short).live <==>
              order[j] in AdmitSets(pool, params, Nothing(conflicts), order).live
    {
      assert order[j] in order;
      PrefixAgain(order, short, j);
      LiveAtTurn(pool, params, conflicts, order, short, j);
    }
  }

  lemma PrefixAgain(order: seq<Conflict>, short: seq<Conflict>, j: nat)
    requires j < |short| <= |order| && short == order[..|short|]
    ensures short[..j] == order[..j] && short[j] == order[j]
  {
  }

  lemma MembersCounted(pool: Pool, params: Params, conflicts: set<Conflict>, s: Selection)
    requires Demoted(pool, conflicts) && WithinBudgets(pool, params, s) && OnlyMembers(conflicts, s)
    ensures CountOf(s, CONFLICTS_AND_STALE) == |s.keys|
  {
    assert SectionOk(pool, params, s, CONFLICTS_AND_STALE);
    assert SectionKeys(pool, s.kept, CONFLICTS_AND_STALE) == s.keys by {
      assert forall k :: k in s.kept <==> k in s.keys;
    }
  }

  lemma KeysAtTurn(conflicts: set<Conflict>, order: seq<Conflict>, live: set<Conflict>, i: nat, s: Selection)
    requires i <= |order| && OnlyMembers(conflicts, s) && SetsWhole(conflicts, s, order[..i])
    requires forall j :: 0 <= j < i ==> (order[j] in s.live <==> order[j] in live)
    ensures s.keys == MembersBefore(order, live, i)
  {
    forall k | k in s.keys ensures k in MembersBefore(order, live, i) {
      assert k in s.kept;
      var c :| c in order[..i] && c in s.live && k in c.members;
      var j :| 0 <= j < i && order[..i][j] == c;
      assert order[j] == c;
    }
    forall k | k in MembersBefore(order, live, i) ensures k in s.keys {
      var j :| 0 <= j < i && order[j] in live && k in order[j].members;
      assert order[..i][j] == order[j] && order[j] in order[..i];
    }
  }
}
