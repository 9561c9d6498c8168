/** The loops of evaluate, which change the candidates in place. */
module PackEvaluator {
  import opened Order
  import opened Sorting
  import opened PackModel
  import opened PackEvaluate
  import opened PackFiling
  import opened Wrappers

  /** Items by reference; where references repeat, the last one would win, so they must not. */
  method ByReference(found: Pool) returns (owner: map<string, Key>)
    requires RefsDistinct(found)
    ensures forall ref, k :: Owns(found, k, ref) <==> ref in owner && owner[ref] == k
  {
    owner := map[];
    var left := found.Keys;
    while left != {}
      invariant left <= found.Keys
      invariant forall ref, k :: Owns(found, k, ref) && k !in left <==> ref in owner && owner[ref] == k
    {
      var k :| k in left;
      if found[k].ref.Some? {
        owner := owner[found[k].ref.value := k];
      }
      left := left - {k};
    }
  }

  /** The first loop: every item is compared with the premises of the request. */
  method ComparePremises(found: Pool, requested: Premises) returns (items: Pool)
    ensures items == map k | k in found :: AfterPremises(found[k], requested)
  {
    items := found;
    var left := found.Keys;
    while left != {}
      invariant left <= found.Keys == items.Keys
      invariant forall k :: k in items ==>
                  items[k] == if k in left then found[k] else AfterPremises(found[k], requested)
    {
      var k :| k in left;
      var item := items[k];
      if Mismatch(item, requested) {
        item := WithFlag(item, "premise_mismatch");
        if item.role in DEMOTABLE {
          item := WithRole(item, WarningExample).(section := CONFLICTS_AND_STALE);
        }
      } else if !Comparable(item, requested) {
        item := WithFlag(item, "premise_unverified");
      }
      items, left := items[k := item], left - {k};
    }
  }

  /** add_set */
  method AddSet(sets: Sets, name: Naming, reason: string, members: set<Key>, marker: Option<string>)
    returns (filed: Sets)
    ensures filed == FiledAll(sets, name, [Entry(Conflict(reason, members), marker)])
  {
    var e := Entry(Conflict(reason, members), marker);
    assert [e][..0] == [];
    filed := sets;
    if name(e.conflict) !in filed {
      filed := filed[name(e.conflict) := e];
    }
  }

  /** What has been read from some edges: the sets of marked pairs, and supersessions as directed pairs. */
  ghost predicate Read(found: Pool, edges: seq<Edge>, name: Naming, sets: Sets, directed: set<(Key, Key)>) {
    sets == FiledAll(map[], name, MarkedAdds(found, edges)) && directed == DirectedPairs(found, edges)
  }

  /** The loop over the relations: marked pairs become conflict sets, supersessions directed pairs. */
  method ReadRelations(found: Pool, edges: seq<Edge>, name: Naming) returns (sets: Sets, directed: set<(Key, Key)>)
    requires RefsDistinct(found)
    ensures Read(found, edges, name, sets, directed)
  {
    var owner := ByReference(found);
    sets, directed := map[], {};
    for i := 0 to |edges|
      invariant Read(found, edges[..i], name, sets, directed)
    {
      sets, directed := ReadRelation(found, owner, edges[..i], edges[i], name, sets, directed);
      assert edges[..i + 1] == edges[..i] + [edges[i]];
    }
    assert edges[..|edges|] == edges;
  }

  method ReadRelation(found: Pool, owner: map<string, Key>, ghost edges: seq<Edge>, e: Edge, name: Naming,
                      sets: Sets, directed: set<(Key, Key)>)
    returns (filed: Sets, pairs: set<(Key, Key)>)
    requires forall ref, k :: Owns(found, k, ref) <==> ref in owner && owner[ref] == k
    requires Read(found, edges, name, sets, directed)
    ensures Read(found, edges + [e], name, filed, pairs)
  {
    filed, pairs := sets, directed;
    var a, b := Ref(e.source), Ref(e.target);
    EdgeSays(found, owner, e);
    if a in owner && b in owner && a != b {
      if e.relation == "related_to" && e.marked {
        filed := AddSet(sets, name, "related_to_conflict", {owner[a], owner[b]}, Some(e.marker));
      } else if Supersession(e) {
        pairs := directed + {if e.relation == "supersedes" then (owner[b], owner[a]) else (owner[a], owner[b])};
      }
    }
    ReadMore(found, edges, e, name, sets, directed, filed, pairs);
  }

  lemma ReadMore(found: Pool, edges: seq<Edge>, e: Edge, name: Naming, sets: Sets, directed: set<(Key, Key)>,
                 filed: Sets, pairs: set<(Key, Key)>)
    requires Read(found, edges, name, sets, directed) && filed == FiledAll(sets, name, MarkEntries(found, e))
    requires forall p, n :: (p, n) in pairs <==> (p, n) in directed || Says(found, e, p, n)
    ensures Read(found, edges + [e], name, filed, pairs)
  {
    assert (edges + [e])[..|edges|] == edges;
    FiledConcat(map[], name, MarkedAdds(found, edges), MarkEntries(found, e));
    OneMoreEdge(found, edges, e);
    DirectedFound(found, edges + [e]);
    assert forall p, n :: (p, n) in pairs <==> Superseded(found, edges + [e], p, n);
    SamePairSet(pairs, DirectedPairs(found, edges + [e]));
  }

  lemma SamePairSet(a: set<(Key, Key)>, b: set<(Key, Key)>)
    requires forall p, n :: (p, n) in a <==> (p, n) in b
    ensures a == b
  {
    forall d ensures d in a <==> d in b {
      assert d == (d.0, d.1);
    }
  }

  /** What one edge says, in terms of the items by reference. */
  lemma EdgeSays(found: Pool, owner: map<string, Key>, e: Edge)
    requires forall ref, k :: Owns(found, k, ref) <==> ref in owner && owner[ref] == k
    ensures var a, b := Ref(e.source), Ref(e.target);
            if !(a in owner && b in owner && a != b) then
              MarkEntries(found, e) == [] && forall p, n :: !Says(found, e, p, n)
            else
              && MarkEntries(found, e) ==
                 (if e.relation == "related_to" && e.marked
                  then [Entry(Conflict("related_to_conflict", {owner[a], owner[b]}), Some(e.marker))] else [])
              && forall p, n ::
                   Says(found, e, p, n) <==>
                   && Supersession(e)
                   && (p, n) == if e.relation == "supersedes" then (owner[b], owner[a]) else (owner[a], owner[b])
  {
    var a, b := Ref(e.source), Ref(e.target);
    if a in owner && b in owner && a != b {
      assert Owns(found, owner[a], a) && Owns(found, owner[b], b);
      assert Relates(found, e, owner[a], owner[b]);
      assert forall x, y :: Relates(found, e, x, y) <==> x == owner[a] && y == owner[b];
    }
  }

  lemma OneMoreEdge(found: Pool, edges: seq<Edge>, e: Edge)
    ensures forall p, n :: Superseded(found, edges + [e], p, n) <==>
              Superseded(found, edges, p, n) || Says(found, e, p, n)
  {
    assert forall x :: x in edges + [e] <==> x in edges || x == e;
  }

  predicate Precedes(some: set<(Key, Key)>, directed: set<(Key, Key)>, k: Key) {
    exists d :: d in some && d.0 == k && (d.1, k) !in directed
  }

  ghost predicate Historic(items: Pool, out: Pool, some: set<(Key, Key)>, directed: set<(Key, Key)>) {
    && out.Keys == items.Keys
    && forall k :: k in items ==> out[k] == if Precedes(some, directed, k) then AsPredecessor(items[k]) else items[k]
  }

  lemma HistoricMore(items: Pool, out: Pool, some: set<(Key, Key)>, directed: set<(Key, Key)>, pair: (Key, Key))
    requires Historic(items, out, some, directed) && pair.0 in items
    ensures var next := if (pair.1, pair.0) in directed then out else out[pair.0 := AsPredecessor(out[pair.0])];
            Historic(items, next, some + {pair}, directed)
  {
    OnePairMore(some, directed, pair);
    PredecessorTwice(items[pair.0]);
  }

  /**
   * The loop over the sorted directed pairs: contradictory ones become conflict sets, others make a predecessor
   * historical.
   */
  method ApplySupersessions(found: Pool, items: Pool, directed: set<(Key, Key)>, name: Naming, sets: Sets)
    returns (out: Pool, filed: Sets)
    requires forall d :: d in directed ==> d.0 in items && d.1 in items
    ensures filed == FiledAll(sets, name, ContradictoryAdds(directed, PairsInOrder(found, directed)))
    ensures out == map k | k in items :: if Precedes(directed, directed, k) then AsPredecessor(items[k]) else items[k]
  {
    PairOrderStrictTotal(found);
    var order := Sorted(PairOrder(found), directed);
    ArrangedIs(PairOrder(found), directed, order);
    out, filed := ApplyInOrder(items, directed, order, name, sets);
  }

  method ApplyInOrder(items: Pool, directed: set<(Key, Key)>, order: seq<(Key, Key)>, name: Naming, sets: Sets)
    returns (out: Pool, filed: Sets)
    requires (forall d :: d in directed ==> d.0 in items && d.1 in items) && Elements(order, directed)
    ensures filed == FiledAll(sets, name, ContradictoryAdds(directed, order))
    ensures Historic(items, out, directed, directed)
  {
    out, filed := items, sets;
    for i := 0 to |order|
      invariant Historic(items, out, Upto(order, i), directed)
      invariant filed == FiledAll(sets, name, ContradictoryAdds(directed, order[..i]))
    {
      var pair := order[i];
      assert pair in order;
      UptoMore(order, i);
      HistoricMore(items, out, Upto(order, i), directed, pair);
      MoreFiled(directed, order, i, name, sets);
      if (pair.1, pair.0) in directed {
        filed := AddSet(filed, name, "contradictory_supersession", {pair.0, pair.1}, None);
      } else {
        out := out[pair.0 := AsPredecessor(out[pair.0])];
      }
    }
    assert order[..|order|] == order && Upto(order, |order|) == directed;
  }

  function Upto(order: seq<(Key, Key)>, i: nat): set<(Key, Key)>
    requires i <= |order|
  {
    set d | d in order[..i]
  }

  lemma UptoMore(order: seq<(Key, Key)>, i: nat)
    requires i < |order|
    ensures Upto(order, i + 1) == Upto(order, i) + {order[i]}
  {
    assert order[..i + 1] == order[..i] + [order[i]];
  }

  lemma MoreFiled(directed: set<(Key, Key)>, order: seq<(Key, Key)>, i: nat, name: Naming, sets: Sets)
    requires i < |order|
    ensures FiledAll(sets, name, ContradictoryAdds(directed, order[..i + 1])) ==
              FiledAll(FiledAll(sets, name, ContradictoryAdds(directed, order[..i])), name,
                       PairEntries(directed, order[i]))
  {
    assert order[..i + 1][..i] == order[..i];
    FiledConcat(sets, name, ContradictoryAdds(directed, order[..i]), PairEntries(directed, order[i]));
  }

  lemma OnePairMore(some: set<(Key, Key)>, directed: set<(Key, Key)>, pair: (Key, Key))
    ensures forall k :: Precedes(some + {pair}, directed, k) <==>
                        Precedes(some, directed, k) || (k == pair.0 && (pair.1, pair.0) !in directed)
  {
  }

  lemma PredecessorTwice(i: Item)
    ensures AsPredecessor(AsPredecessor(i)) == AsPredecessor(i)
  {
    assert i.flags + {"historical"} + {"historical"} == i.flags + {"historical"};
  }

  lemma ConflictTwice(i: Item)
    ensures InConflict(InConflict(i)) == InConflict(i)
  {
    assert i.flags + {"conflict"} + {"conflict"} == i.flags + {"conflict"};
  }

  /** The loop over the items as they are listed: each challenged one is a conflict of its own. */
  method ReadChallenges(found: Pool, order: seq<Key>, name: Naming, sets: Sets) returns (filed: Sets)
    ensures filed == FiledAll(sets, name, ChallengedAdds(found, order))
  {
    filed := sets;
    for i := 0 to |order|
      invariant filed == FiledAll(sets, name, ChallengedAdds(found, order[..i]))
    {
      assert order[..i + 1][..i] == order[..i];
      FiledConcat(sets, name, ChallengedAdds(found, order[..i]), ChallengeEntries(found, order[i]));
      if order[i] in found && found[order[i]].challenged {
        filed := AddSet(filed, name, "challenged", {order[i]}, None);
      }
    }
    assert order[..|order|] == order;
  }

  /** The loop over the sorted subjects that two polarities speak about. */
  method ReadSubjects(found: Pool, name: Naming, sets: Sets) returns (filed: Sets)
    ensures filed == FiledAll(sets, name, OpposedAdds(found, SubjectsInOrder(found)))
  {
    StrLessStrictTotal();
    var subjects := Sorted(StrLess, Subjects(found));
    ArrangedIs(StrLess, Subjects(found), subjects);
    filed := ReadInOrder(found, subjects, name, sets);
  }

  method ReadInOrder(found: Pool, subjects: seq<string>, name: Naming, sets: Sets) returns (filed: Sets)
    ensures filed == FiledAll(sets, name, OpposedAdds(found, subjects))
  {
    filed := sets;
    for i := 0 to |subjects|
      invariant filed == FiledAll(sets, name, OpposedAdds(found, subjects[..i]))
    {
      assert subjects[..i + 1][..i] == subjects[..i];
      FiledConcat(sets, name, OpposedAdds(found, subjects[..i]), SubjectEntries(found, subjects[i]));
      if Opposed(found, SubjectGroup(found, subjects[i])) {
        filed := AddSet(filed, name, "opposite_polarity", SubjectGroup(found, subjects[i]), None);
      }
    }
    assert subjects[..|subjects|] == subjects;
  }

  /** The last loop: every member of every set is demoted and flagged. */
  method MarkMembers(items: Pool, sets: set<Conflict>) returns (out: Pool)
    requires forall c :: c in sets ==> c.members <= items.Keys
    ensures out == map k | k in items :: if k in Members(sets) then InConflict(items[k]) else items[k]
  {
    out := items;
    var left := sets;
    while left != {}
      invariant left <= sets
      invariant out == map k | k in items :: if k in Members(sets - left) then InConflict(items[k]) else items[k]
    {
      var c :| c in left;
      assert sets - (left - {c}) == sets - left + {c};
      MembersMore(sets - left, c);
      out := MarkSet(items, out, Members(sets - left), c.members);
      left := left - {c};
    }
    assert sets - {} == sets;
  }

  lemma MembersMore(done: set<Conflict>, c: Conflict)
    ensures Members(done + {c}) == Members(done) + c.members
  {
  }

  /** The members of one set, some of which may be marked already. */
  method MarkSet(items: Pool, now: Pool, ghost before: set<Key>, members: set<Key>) returns (out: Pool)
    requires members <= items.Keys
    requires now == map k | k in items :: if k in before then InConflict(items[k]) else items[k]
    ensures out == map k | k in items :: if k in before + members then InConflict(items[k]) else items[k]
  {
    out := now;
    var left := members;
    while left != {}
      invariant left <= members && out.Keys == items.Keys
      invariant forall k :: k in items ==>
                  out[k] == if k in before + (members - left) then InConflict(items[k]) else items[k]
    {
      var k :| k in left;
      ConflictTwice(items[k]);
      out := out[k := InConflict(out[k])];
      left := left - {k};
    }
  }

  /** evaluate, for items listed in the given order. */
  method Evaluate(found: Pool, order: seq<Key>, edges: seq<Edge>, requested: Premises, name: Naming)
    returns (items: Pool, sets: Sets)
    requires RefsDistinct(found) && Elements(order, found.Keys)
    ensures sets == FiledSets(found, order, edges, name)
    ensures items == Evaluated(found, edges, requested, ConflictsOf(sets))
  {
    var directed, related;
    var compared := ComparePremises(found, requested);
    sets, directed := ReadRelations(found, edges, name);
    related, sets := ApplySupersessions(found, compared, directed, name, sets);
    sets := ReadChallenges(found, order, name, sets);
    sets := ReadSubjects(found, name, sets);
    FiledWithin(found, order, edges, name);
    items := MarkMembers(related, ConflictsOf(sets));
    StagesAreEvaluated(found, edges, requested, ConflictsOf(sets), compared, related, items);
  }

  lemma FiledWithin(found: Pool, order: seq<Key>, edges: seq<Edge>, name: Naming)
    requires RefsDistinct(found) && Elements(order, found.Keys)
    ensures ConflictsOf(FiledSets(found, order, edges, name)) <= Conflicts(found, edges)
    ensures forall c :: c in ConflictsOf(FiledSets(found, order, edges, name)) ==> c.members <= found.Keys
  {
    FiledOnce(found, order, edges, name);
    ConflictMembersFound(found, edges);
  }

  /** The loops one after the other judge every item as its evaluation says. */
  lemma StagesAreEvaluated(found: Pool, edges: seq<Edge>, requested: Premises, filed: set<Conflict>, compared: Pool,
                           related: Pool, items: Pool)
    requires filed <= Conflicts(found, edges)
    requires compared == map k | k in found :: AfterPremises(found[k], requested)
    requires var directed := DirectedPairs(found, edges);
             related == map k | k in compared ::
               if Precedes(directed, directed, k) then AsPredecessor(compared[k]) else compared[k]
    requires items == map k | k in related :: if k in Members(filed) then InConflict(related[k]) else related[k]
    ensures items == Evaluated(found, edges, requested, filed)
  {
    EvaluatedIsDemoted(found, edges, requested, filed);
    PredecessorsPrecede(found, edges);
    var e := Evaluated(found, edges, requested, filed);
    assert items.Keys == found.Keys;
    SameItems(items, e) by {
      forall k | k in found ensures items[k] == e[k] {
        EvaluatedAt(found, edges, requested, filed, k);
      }
    }
  }

  lemma PredecessorsPrecede(found: Pool, edges: seq<Edge>)
    ensures var directed := DirectedPairs(found, edges);
            forall k :: Precedes(directed, directed, k) <==> Predecessor(found, edges, k)
  {
    var directed := DirectedPairs(found, edges);
    DirectedFound(found, edges);
    forall k ensures Precedes(directed, directed, k) <==> Predecessor(found, edges, k) {
      if Predecessor(found, edges, k) {
        var n :| n in found && Superseded(found, edges, k, n) && !Superseded(found, edges, n, k);
        assert (k, n) in directed && (k, n).0 == k;
      }
    }
  }

  lemma DirectedFound(found: Pool, edges: seq<Edge>)
    ensures forall p, n :: Superseded(found, edges, p, n) ==> p in found && n in found
  {
  }
}
