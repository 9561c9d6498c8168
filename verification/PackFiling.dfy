/** add_set: evaluate files each conflict set under its key, and the first set to come keeps the key. */
module PackFiling {
  import opened Order
  import opened Sorting
  import opened PackModel
  import opened PackEvaluate
  import opened Wrappers

  /** A filed set, and the marker of the relation that it was filed for, if it was a marked one. */
  datatype Entry = Entry(conflict: Conflict, marker: Option<string>)

  type Sets = map<string, Entry>

  /** sets.setdefault */
  function Filed(sets: Sets, name: Naming, e: Entry): Sets {
    if name(e.conflict) in sets then sets else sets[name(e.conflict) := e]
  }

  function FiledAll(sets: Sets, name: Naming, adds: seq<Entry>): Sets {
    if adds == [] then sets else Filed(FiledAll(sets, name, adds[..|adds| - 1]), name, adds[|adds| - 1])
  }

  function ConflictsOf(sets: Sets): set<Conflict> { set k | k in sets :: sets[k].conflict }

  function AddedConflicts(adds: seq<Entry>): set<Conflict> { set e | e in adds :: e.conflict }

  // ---------------------------------------------------------------- setdefault in general

  lemma {:induction false} FiledConcat(sets: Sets, name: Naming, a: seq<Entry>, b: seq<Entry>)
    ensures FiledAll(sets, name, a + b) == FiledAll(FiledAll(sets, name, a), name, b)
  {
    if b == [] {
      assert a + b == a;
    } else {
      FiledConcat(sets, name, a, b[..|b| - 1]);
      assert (a + b)[..|a + b| - 1] == a + b[..|b| - 1];
    }
  }

  /** Entries stay, new ones come from the additions, and every addition finds its key taken in the end. */
  lemma {:induction false} FiledFacts(sets: Sets, name: Naming, adds: seq<Entry>)
    ensures var r := FiledAll(sets, name, adds);
            && (forall k :: k in sets ==> k in r && r[k] == sets[k])
            && (forall k :: k in r && k !in sets ==> r[k] in adds && name(r[k].conflict) == k)
            && (forall e :: e in adds ==> name(e.conflict) in r)
  {
    if adds != [] {
      FiledFacts(sets, name, adds[..|adds| - 1]);
      assert forall e :: e in adds <==> e in adds[..|adds| - 1] || e == adds[|adds| - 1];
    }
  }

  /** Additions that compete for a free key are the same addition. */
  ghost predicate OneEach(sets: Sets, name: Naming, adds: seq<Entry>) {
    forall e, f :: e in adds && f in adds && name(e.conflict) == name(f.conflict) && name(e.conflict) !in sets ==>
      e == f
  }

  lemma SameFiling(sets: Sets, name: Naming, a: seq<Entry>, b: seq<Entry>)
    requires OneEach(sets, name, a) && forall e :: e in a <==> e in b
    ensures FiledAll(sets, name, a) == FiledAll(sets, name, b)
  {
    FiledFacts(sets, name, a);
    FiledFacts(sets, name, b);
    SameEntries(sets, name, a, FiledAll(sets, name, a), FiledAll(sets, name, b));
  }

  lemma SameEntries(sets: Sets, name: Naming, adds: seq<Entry>, r: Sets, t: Sets)
    requires OneEach(sets, name, adds)
    requires forall k :: k in sets ==> k in r && k in t && r[k] == sets[k] && t[k] == sets[k]
    requires forall k :: k in r && k !in sets ==> r[k] in adds && name(r[k].conflict) == k
    requires forall k :: k in t && k !in sets ==> t[k] in adds && name(t[k].conflict) == k
    requires forall e :: e in adds ==> name(e.conflict) in r && name(e.conflict) in t
    ensures r == t
  {
    assert r.Keys == t.Keys;
    forall k | k in r ensures r[k] == t[k] {
    }
  }

  /** Whoever comes first on a free key has it. */
  lemma FirstKeeps(sets: Sets, name: Naming, e: Entry, rest: seq<Entry>)
    requires name(e.conflict) !in sets
    ensures var r := FiledAll(sets, name, [e] + rest); name(e.conflict) in r && r[name(e.conflict)] == e
  {
    FiledConcat(sets, name, [e], rest);
    assert [e][..0] == [];
    FiledFacts(FiledAll(sets, name, [e]), name, rest);
  }

  // ---------------------------------------------------------------- what evaluate files, in order

  /** The pair that a marked relation makes a conflict. */
  ghost function MarkEntries(found: Pool, e: Edge): seq<Entry> {
    if e.relation == "related_to" && e.marked && exists a, b :: Relates(found, e, a, b) then
      var a, b :| Relates(found, e, a, b);
      [Entry(Conflict("related_to_conflict", {a, b}), Some(e.marker))]
    else []
  }

  ghost function MarkedAdds(found: Pool, edges: seq<Edge>): seq<Entry> {
    if edges == [] then []
    else MarkedAdds(found, edges[..|edges| - 1]) + MarkEntries(found, edges[|edges| - 1])
  }

  function RefOf(found: Pool, k: Key): string {
    if k in found && found[k].ref.Some? then found[k].ref.value else ""
  }

  /** Two references tell a pair of items apart; the keys after them only make the order total. */
  function PairText(found: Pool, p: (Key, Key)): seq<string> { [RefOf(found, p.0), RefOf(found, p.1), p.0, p.1] }

  /** The order of sorted(directed.items()). */
  function PairOrder(found: Pool): ((Key, Key), (Key, Key)) -> bool {
    (p: (Key, Key), q: (Key, Key)) => TupleLess(PairText(found, p), PairText(found, q))
  }

  lemma PairTextTellsThePair(found: Pool, p: (Key, Key), q: (Key, Key))
    ensures PairText(found, p) == PairText(found, q) ==> p == q
  {
    assert PairText(found, p)[2] == p.0 && PairText(found, p)[3] == p.1;
    assert PairText(found, q)[2] == q.0 && PairText(found, q)[3] == q.1;
  }

  lemma PairOrderStrictTotal(found: Pool)
    ensures StrictTotal(PairOrder(found))
  {
    TupleLessStrictTotal();
    forall p: (Key, Key), q: (Key, Key) ensures PairOrder(found)(p, q) || p == q || PairOrder(found)(q, p) {
      PairTextTellsThePair(found, p, q);
    }
  }

  function PairEntries(directed: set<(Key, Key)>, d: (Key, Key)): seq<Entry> {
    if (d.1, d.0) in directed then [Entry(Conflict("contradictory_supersession", {d.0, d.1}), None)] else []
  }

  function ContradictoryAdds(directed: set<(Key, Key)>, order: seq<(Key, Key)>): seq<Entry> {
    if order == [] then []
    else ContradictoryAdds(directed, order[..|order| - 1]) + PairEntries(directed, order[|order| - 1])
  }

  function ChallengeEntries(found: Pool, k: Key): seq<Entry> {
    if k in found && found[k].challenged then [Entry(Conflict("challenged", {k}), None)] else []
  }

  function ChallengedAdds(found: Pool, order: seq<Key>): seq<Entry> {
    if order == [] then []
    else ChallengedAdds(found, order[..|order| - 1]) + ChallengeEntries(found, order[|order| - 1])
  }

  function SubjectEntries(found: Pool, subject: string): seq<Entry> {
    if Opposed(found, SubjectGroup(found, subject))
    then [Entry(Conflict("opposite_polarity", SubjectGroup(found, subject)), None)]
    else []
  }

  function OpposedAdds(found: Pool, subjects: seq<string>): seq<Entry> {
    if subjects == [] then []
    else OpposedAdds(found, subjects[..|subjects| - 1]) + SubjectEntries(found, subjects[|subjects| - 1])
  }

  /** Each ordered pair that some relation says to be a supersession. */
  ghost function DirectedPairs(found: Pool, edges: seq<Edge>): set<(Key, Key)> {
    set p, n | p in found && n in found && Superseded(found, edges, p, n) :: (p, n)
  }

  ghost function PairsInOrder(found: Pool, directed: set<(Key, Key)>): seq<(Key, Key)> {
    PairOrderStrictTotal(found);
    Arranged(PairOrder(found), directed)
  }

  ghost function SubjectsInOrder(found: Pool): seq<string> {
    StrLessStrictTotal();
    Arranged(StrLess, Subjects(found))
  }

  /** Filed for the relations, before any item is looked at. */
  ghost function RelationSets(found: Pool, edges: seq<Edge>, name: Naming): Sets {
    var directed := DirectedPairs(found, edges);
    FiledAll(FiledAll(map[], name, MarkedAdds(found, edges)), name,
             ContradictoryAdds(directed, PairsInOrder(found, directed)))
  }

  /** The sets that evaluate returns for items listed in the given order. */
  ghost function FiledSets(found: Pool, order: seq<Key>, edges: seq<Edge>, name: Naming): Sets {
    FiledAll(FiledAll(RelationSets(found, edges, name), name, ChallengedAdds(found, order)), name,
             OpposedAdds(found, SubjectsInOrder(found)))
  }

  /** All additions in their order. */
  ghost function AllAdds(found: Pool, order: seq<Key>, edges: seq<Edge>): seq<Entry> {
    var directed := DirectedPairs(found, edges);
    MarkedAdds(found, edges) + ContradictoryAdds(directed, PairsInOrder(found, directed))
    + ChallengedAdds(found, order) + OpposedAdds(found, SubjectsInOrder(found))
  }

  lemma FiledSetsAre(found: Pool, order: seq<Key>, edges: seq<Edge>, name: Naming)
    ensures FiledSets(found, order, edges, name) == FiledAll(map[], name, AllAdds(found, order, edges))
  {
    var directed := DirectedPairs(found, edges);
    var a, b := MarkedAdds(found, edges), ContradictoryAdds(directed, PairsInOrder(found, directed));
    var c, d := ChallengedAdds(found, order), OpposedAdds(found, SubjectsInOrder(found));
    FiledConcat(map[], name, a + b + c, d);
    FiledConcat(map[], name, a + b, c);
    FiledConcat(map[], name, a, b);
  }

  // ---------------------------------------------------------------- the additions are the conflicts found

  lemma MarkEntriesAre(found: Pool, e: Edge, x: Entry)
    requires RefsDistinct(found)
    ensures x in MarkEntries(found, e) <==>
              x.conflict.reason == "related_to_conflict" && Marks(found, e, x.conflict.members) &&
                x.marker == Some(e.marker)
  {
    if e.relation == "related_to" && e.marked && exists a, b :: Relates(found, e, a, b) {
      var a, b :| Relates(found, e, a, b);
      assert forall c, d :: Relates(found, e, c, d) ==> c == a && d == b;
    }
  }

  lemma {:induction false} MarkedAddsAre(found: Pool, edges: seq<Edge>, x: Entry)
    requires RefsDistinct(found)
    ensures x in MarkedAdds(found, edges) <==> exists e :: e in edges && x in MarkEntries(found, e)
  {
    if edges != [] {
      var most, last := edges[..|edges| - 1], edges[|edges| - 1];
      MarkedAddsAre(found, most, x);
      assert forall e :: e in edges <==> e in most || e == last;
    }
  }

  lemma {:induction false} ContradictoryAddsAre(directed: set<(Key, Key)>, order: seq<(Key, Key)>, x: Entry)
    ensures x in ContradictoryAdds(directed, order) <==> exists d :: d in order && x in PairEntries(directed, d)
  {
    if order != [] {
      ContradictoryAddsAre(directed, order[..|order| - 1], x);
      assert forall d :: d in order <==> d in order[..|order| - 1] || d == order[|order| - 1];
    }
  }

  lemma {:induction false} ChallengedAddsAre(found: Pool, order: seq<Key>, x: Entry)
    ensures x in ChallengedAdds(found, order) <==> exists k :: k in order && x in ChallengeEntries(found, k)
  {
    if order != [] {
      ChallengedAddsAre(found, order[..|order| - 1], x);
      assert forall k :: k in order <==> k in order[..|order| - 1] || k == order[|order| - 1];
    }
  }

  lemma {:induction false} OpposedAddsAre(found: Pool, subjects: seq<string>, x: Entry)
    ensures x in OpposedAdds(found, subjects) <==> exists s :: s in subjects && x in SubjectEntries(found, s)
  {
    if subjects != [] {
      OpposedAddsAre(found, subjects[..|subjects| - 1], x);
      assert forall s :: s in subjects <==> s in subjects[..|subjects| - 1] || s == subjects[|subjects| - 1];
    }
  }

  lemma MarkedAddsFound(found: Pool, edges: seq<Edge>)
    requires RefsDistinct(found)
    ensures AddedConflicts(MarkedAdds(found, edges)) == MarkedSets(found, edges)
  {
    forall c ensures c in AddedConflicts(MarkedAdds(found, edges)) <==> c in MarkedSets(found, edges) {
      if c in AddedConflicts(MarkedAdds(found, edges)) {
        var x :| x in MarkedAdds(found, edges) && x.conflict == c;
        MarkedAddsAre(found, edges, x);
        var e :| e in edges && x in MarkEntries(found, e);
        MarkEntriesAre(found, e, x);
      }
      if c in MarkedSets(found, edges) {
        var e, a, b :| e in edges && a in found && b in found && e.relation == "related_to" && e.marked
                       && Relates(found, e, a, b) && c == Conflict("related_to_conflict", {a, b});
        var x := Entry(c, Some(e.marker));
        MarkEntriesAre(found, e, x);
        MarkedAddsAre(found, edges, x);
      }
    }
  }

  lemma ContradictoryAddsFound(found: Pool, edges: seq<Edge>)
    ensures var directed := DirectedPairs(found, edges);
            AddedConflicts(ContradictoryAdds(directed, PairsInOrder(found, directed))) ==
              ContradictorySets(found, edges)
  {
    var directed := DirectedPairs(found, edges);
    PairsAdded(directed, PairsInOrder(found, directed));
    forall c ensures c in ContradictorySets(found, edges) <==>
                     exists d :: d in directed && (d.1, d.0) in directed &&
                                 c == Conflict("contradictory_supersession", {d.0, d.1})
    {
      if c in ContradictorySets(found, edges) {
        var a, b :| a in found && b in found && Superseded(found, edges, a, b) && Superseded(found, edges, b, a)
                    && c == Conflict("contradictory_supersession", {a, b});
        assert (a, b) in directed && (b, a) in directed && (a, b).0 == a && (a, b).1 == b;
      }
    }
  }

  lemma PairsAdded(directed: set<(Key, Key)>, order: seq<(Key, Key)>)
    requires Elements(order, directed)
    ensures forall c :: c in AddedConflicts(ContradictoryAdds(directed, order)) <==>
                        exists d :: d in directed && (d.1, d.0) in directed &&
                                    c == Conflict("contradictory_supersession", {d.0, d.1})
  {
    forall c ensures c in AddedConflicts(ContradictoryAdds(directed, order)) <==>
                     exists d :: d in directed && (d.1, d.0) in directed &&
                                 c == Conflict("contradictory_supersession", {d.0, d.1})
    {
      if c in AddedConflicts(ContradictoryAdds(directed, order)) {
        var x :| x in ContradictoryAdds(directed, order) && x.conflict == c;
        ContradictoryAddsAre(directed, order, x);
      }
      ContradictoryAddsAre(directed, order, Entry(c, None));
      if d :| d in directed && (d.1, d.0) in directed && c == Conflict("contradictory_supersession", {d.0, d.1}) {
        assert d in order && Entry(c, None) in PairEntries(directed, d);
      }
    }
  }

  lemma ChallengedAddsFound(found: Pool, order: seq<Key>)
    requires Elements(order, found.Keys)
    ensures AddedConflicts(ChallengedAdds(found, order)) == ChallengedSets(found)
  {
    forall c ensures c in AddedConflicts(ChallengedAdds(found, order)) <==> c in ChallengedSets(found) {
      ChallengedAddsAre(found, order, Entry(c, None));
      if c in AddedConflicts(ChallengedAdds(found, order)) {
        var x :| x in ChallengedAdds(found, order) && x.conflict == c;
        ChallengedAddsAre(found, order, x);
      }
      if c in ChallengedSets(found) {
        var k :| k in found && found[k].challenged && c == Conflict("challenged", {k});
        assert Entry(c, None) in ChallengeEntries(found, k);
      }
    }
  }

  lemma OpposedAddsFound(found: Pool)
    ensures AddedConflicts(OpposedAdds(found, SubjectsInOrder(found))) == OpposedSets(found)
  {
    var subjects := SubjectsInOrder(found);
    forall c ensures c in AddedConflicts(OpposedAdds(found, subjects)) <==> c in OpposedSets(found) {
      OpposedAddsAre(found, subjects, Entry(c, None));
      if c in AddedConflicts(OpposedAdds(found, subjects)) {
        var x :| x in OpposedAdds(found, subjects) && x.conflict == c;
        OpposedAddsAre(found, subjects, x);
      }
      if c in OpposedSets(found) {
        var s :| s in Subjects(found) && Opposed(found, SubjectGroup(found, s))
                 && c == Conflict("opposite_polarity", SubjectGroup(found, s));
        assert s in subjects && Entry(c, None) in SubjectEntries(found, s);
      }
    }
  }

  lemma AddedTogether(a: seq<Entry>, b: seq<Entry>)
    ensures AddedConflicts(a + b) == AddedConflicts(a) + AddedConflicts(b)
  {
    assert forall e :: e in a + b <==> e in a || e in b;
  }

  lemma AllConflictsAdded(found: Pool, order: seq<Key>, edges: seq<Edge>)
    requires RefsDistinct(found) && Elements(order, found.Keys)
    ensures AddedConflicts(AllAdds(found, order, edges)) == Conflicts(found, edges)
  {
    var directed := DirectedPairs(found, edges);
    var a, b := MarkedAdds(found, edges), ContradictoryAdds(directed, PairsInOrder(found, directed));
    var c, d := ChallengedAdds(found, order), OpposedAdds(found, SubjectsInOrder(found));
    MarkedAddsFound(found, edges);
    ContradictoryAddsFound(found, edges);
    ChallengedAddsFound(found, order);
    OpposedAddsFound(found);
    AddedTogether(a + b + c, d);
    AddedTogether(a + b, c);
    AddedTogether(a, b);
  }

  // ---------------------------------------------------------------- which of the conflicts found are filed

  /** Only conflicts that were found are filed, each key once, and every conflict found meets its key taken. */
  lemma FiledOnce(found: Pool, order: seq<Key>, edges: seq<Edge>, name: Naming)
    requires RefsDistinct(found) && Elements(order, found.Keys)
    ensures var filed := ConflictsOf(FiledSets(found, order, edges, name));
            && filed <= Conflicts(found, edges) && KeysDiffer(name, filed)
            && forall c :: c in Conflicts(found, edges) ==> exists d :: d in filed && name(d) == name(c)
  {
    FiledSetsAre(found, order, edges, name);
    AllConflictsAdded(found, order, edges);
    AddsFiledOnce(name, AllAdds(found, order, edges));
  }

  ghost predicate UnderTheirNames(sets: Sets, name: Naming) { forall k :: k in sets ==> name(sets[k].conflict) == k }

  lemma AddsFiledOnce(name: Naming, adds: seq<Entry>)
    ensures var filed := ConflictsOf(FiledAll(map[], name, adds));
            && filed <= AddedConflicts(adds) && KeysDiffer(name, filed)
            && forall c :: c in AddedConflicts(adds) ==> exists d :: d in filed && name(d) == name(c)
  {
    FiledFacts(map[], name, adds);
    var r := FiledAll(map[], name, adds);
    NamesTell(r, name);
    forall c | c in AddedConflicts(adds) ensures exists d :: d in ConflictsOf(r) && name(d) == name(c) {
      var e :| e in adds && e.conflict == c;
      HasConflict(r, name(e.conflict));
    }
  }

  lemma NamesTell(sets: Sets, name: Naming)
    requires UnderTheirNames(sets, name)
    ensures KeysDiffer(name, ConflictsOf(sets))
  {
    forall c, d | c in ConflictsOf(sets) && d in ConflictsOf(sets) && name(c) == name(d) ensures c == d {
      var j :| j in sets && sets[j].conflict == c;
      var k :| k in sets && sets[k].conflict == d;
      assert j == k;
    }
  }

  lemma HasConflict(sets: Sets, k: string)
    requires k in sets
    ensures sets[k].conflict in ConflictsOf(sets)
  {
  }

  /** Every conflict that is found is filed, and so has its sides demoted, iff no two of them have the same key. */
  lemma AllFiledExactlyWhen(found: Pool, order: seq<Key>, edges: seq<Edge>, name: Naming)
    requires RefsDistinct(found) && Elements(order, found.Keys)
    ensures ConflictsOf(FiledSets(found, order, edges, name)) == Conflicts(found, edges) <==>
              KeysDiffer(name, Conflicts(found, edges))
  {
    FiledOnce(found, order, edges, name);
    var filed := ConflictsOf(FiledSets(found, order, edges, name));
    if KeysDiffer(name, Conflicts(found, edges)) {
      forall c | c in Conflicts(found, edges) ensures c in filed {
        var d :| d in filed && name(d) == name(c);
        assert d in Conflicts(found, edges);
      }
    }
  }

  /** Then no side of any conflict found keeps an instructing role, its section or its flags. */
  lemma EverySideDemotedWhen(found: Pool, order: seq<Key>, edges: seq<Edge>, requested: Premises, name: Naming, k: Key)
    requires RefsDistinct(found) && Elements(order, found.Keys) && KeysDiffer(name, Conflicts(found, edges))
    requires k in Members(Conflicts(found, edges))
    ensures var items := Evaluated(found, edges, requested, ConflictsOf(FiledSets(found, order, edges, name)));
            k in items && items[k].role !in DEMOTABLE && "conflict" in items[k].flags
            && items[k].section == CONFLICTS_AND_STALE
  {
    AllFiledExactlyWhen(found, order, edges, name);
    EvaluatedIsDemoted(found, edges, requested, Conflicts(found, edges));
    assert k in Evaluated(found, edges, requested, Conflicts(found, edges));
    ConflictHasNoWinner(found, edges, requested, Conflicts(found, edges), k);
  }

  // ---------------------------------------------------------------- when the order of the items does not matter

  lemma {:induction false} ChallengedConcat(found: Pool, a: seq<Key>, b: seq<Key>)
    ensures ChallengedAdds(found, a + b) == ChallengedAdds(found, a) + ChallengedAdds(found, b)
  {
    if b == [] {
      assert a + b == a;
    } else {
      ChallengedConcat(found, a, b[..|b| - 1]);
      assert (a + b)[..|a + b| - 1] == a + b[..|b| - 1];
    }
  }

  /** No two challenged items compete for a key that the relations have left free. */
  ghost predicate ChallengesApart(found: Pool, edges: seq<Edge>, name: Naming) {
    forall k, l :: k in found && l in found && found[k].challenged && found[l].challenged && k != l ==>
      var n := name(Conflict("challenged", {k}));
      n == name(Conflict("challenged", {l})) ==> n in RelationSets(found, edges, name)
  }

  ghost predicate ItemOrderCannotMatter(found: Pool, order: seq<Key>, edges: seq<Edge>, name: Naming) {
    forall permuted :: multiset(permuted) == multiset(order) ==>
                         FiledSets(found, permuted, edges, name) == FiledSets(found, order, edges, name)
  }

  /** The filed sets are the same for every order of the items iff challenged items do not compete for a free key. */
  lemma ItemOrderCannotMatterExactlyWhen(found: Pool, order: seq<Key>, edges: seq<Edge>, name: Naming)
    requires Elements(order, found.Keys)
    ensures ItemOrderCannotMatter(found, order, edges, name) <==> ChallengesApart(found, edges, name)
  {
    if ChallengesApart(found, edges, name) {
      forall permuted: seq<Key> | multiset(permuted) == multiset(order)
        ensures FiledSets(found, permuted, edges, name) == FiledSets(found, order, edges, name)
      {
        SameMultisetElements(permuted, order);
        SameFiledSets(found, order, permuted, edges, name);
      }
    }
    if ItemOrderCannotMatter(found, order, edges, name) {
      forall k, l | k in found && l in found && found[k].challenged && found[l].challenged && k != l
                    && name(Conflict("challenged", {k})) == name(Conflict("challenged", {l}))
        ensures name(Conflict("challenged", {k})) in RelationSets(found, edges, name)
      {
        if name(Conflict("challenged", {k})) !in RelationSets(found, edges, name) {
          OneInFront(found, order, edges, name, k, l);
        }
      }
    }
  }

  lemma SameMultisetElements<T>(a: seq<T>, b: seq<T>)
    requires multiset(a) == multiset(b)
    ensures forall x :: x in a <==> x in b
  {
    forall x ensures x in a <==> x in b {
      assert x in multiset(a) <==> x in multiset(b);
    }
  }

  lemma SameFiledSets(found: Pool, a: seq<Key>, b: seq<Key>, edges: seq<Edge>, name: Naming)
    requires ChallengesApart(found, edges, name) && (forall k :: k in a <==> k in b)
    ensures FiledSets(found, a, edges, name) == FiledSets(found, b, edges, name)
  {
    var sets := RelationSets(found, edges, name);
    forall x ensures x in ChallengedAdds(found, a) <==> x in ChallengedAdds(found, b) {
      ChallengedAddsAre(found, a, x);
      ChallengedAddsAre(found, b, x);
    }
    ChallengesOneEach(found, a, edges, name);
    SameFiling(sets, name, ChallengedAdds(found, a), ChallengedAdds(found, b));
  }

  lemma ChallengesOneEach(found: Pool, order: seq<Key>, edges: seq<Edge>, name: Naming)
    requires ChallengesApart(found, edges, name)
    ensures OneEach(RelationSets(found, edges, name), name, ChallengedAdds(found, order))
  {
    var sets := RelationSets(found, edges, name);
    forall e, f | e in ChallengedAdds(found, order) && f in ChallengedAdds(found, order)
                  && name(e.conflict) == name(f.conflict) && name(e.conflict) !in sets
      ensures e == f
    {
      ChallengedAddsAre(found, order, e);
      ChallengedAddsAre(found, order, f);
      var k :| k in order && e in ChallengeEntries(found, k);
      var l :| l in order && f in ChallengeEntries(found, l);
      SameChallenge(found, edges, name, e, f, k, l);
    }
  }

  lemma SameChallenge(found: Pool, edges: seq<Edge>, name: Naming, e: Entry, f: Entry, k: Key, l: Key)
    requires ChallengesApart(found, edges, name) && e in ChallengeEntries(found, k) && f in ChallengeEntries(found, l)
    requires name(e.conflict) == name(f.conflict) && name(e.conflict) !in RelationSets(found, edges, name)
    ensures e == f
  {
    assert e.conflict == Conflict("challenged", {k}) && f.conflict == Conflict("challenged", {l});
  }

  /** The challenged item that comes first is the one whose conflict is filed. */
  lemma InFront(found: Pool, order: seq<Key>, edges: seq<Edge>, name: Naming, k: Key)
    requires ItemOrderCannotMatter(found, order, edges, name) && k in order && k in found && found[k].challenged
    requires name(Conflict("challenged", {k})) !in RelationSets(found, edges, name)
    ensures var r := FiledSets(found, order, edges, name);
            var n := name(Conflict("challenged", {k}));
            n in r && r[n] == Entry(Conflict("challenged", {k}), None)
  {
    var permuted := MovedInFront(order, k);
    FrontIsFiled(found, permuted, edges, name, k);
  }

  lemma OneInFront(found: Pool, order: seq<Key>, edges: seq<Edge>, name: Naming, k: Key, l: Key)
    requires ItemOrderCannotMatter(found, order, edges, name) && k in order && k in found && found[k].challenged
    requires l in order && l in found && found[l].challenged
    requires name(Conflict("challenged", {k})) == name(Conflict("challenged", {l}))
    requires name(Conflict("challenged", {k})) !in RelationSets(found, edges, name)
    ensures k == l
  {
    InFront(found, order, edges, name, k);
    InFront(found, order, edges, name, l);
    assert k in Conflict("challenged", {k}).members;
  }

  lemma MovedInFront<T>(s: seq<T>, x: T) returns (permuted: seq<T>)
    requires x in s
    ensures multiset(permuted) == multiset(s) && permuted != [] && permuted[0] == x
  {
    var i :| 0 <= i < |s| && s[i] == x;
    permuted := [x] + s[..i] + s[i + 1..];
    assert s == s[..i] + [x] + s[i + 1..];
  }

  lemma FrontIsFiled(found: Pool, order: seq<Key>, edges: seq<Edge>, name: Naming, k: Key)
    requires order != [] && order[0] == k && k in found && found[k].challenged
    requires name(Conflict("challenged", {k})) !in RelationSets(found, edges, name)
    ensures var r := FiledSets(found, order, edges, name);
            var n := name(Conflict("challenged", {k}));
            n in r && r[n] == Entry(Conflict("challenged", {k}), None)
  {
    var sets, e := RelationSets(found, edges, name), Entry(Conflict("challenged", {k}), None);
    var rest := ChallengedAdds(found, order[1..]);
    ChallengedConcat(found, [k], order[1..]);
    assert order == [k] + order[1..] && [k][..0] == [];
    assert ChallengedAdds(found, [k]) == [e];
    FirstKeeps(sets, name, e, rest);
    FiledFacts(FiledAll(sets, name, [e] + rest), name, OpposedAdds(found, SubjectsInOrder(found)));
  }

  // ---------------------------------------------------------------- when the order of the relations does not matter

  lemma {:induction false} MarkedConcat(found: Pool, a: seq<Edge>, b: seq<Edge>)
    ensures MarkedAdds(found, a + b) == MarkedAdds(found, a) + MarkedAdds(found, b)
  {
    if b == [] {
      assert a + b == a;
    } else {
      MarkedConcat(found, a, b[..|b| - 1]);
      assert (a + b)[..|a + b| - 1] == a + b[..|b| - 1];
    }
  }

  /** Relations that mark pairs under the same key mark the same pair, and under the same marker. */
  ghost predicate MarksApart(found: Pool, edges: seq<Edge>, name: Naming) {
    OneEach(map[], name, MarkedAdds(found, edges))
  }

  ghost predicate RelationOrderCannotMatter(found: Pool, order: seq<Key>, edges: seq<Edge>, name: Naming) {
    forall permuted :: multiset(permuted) == multiset(edges) ==>
                         FiledSets(found, order, permuted, name) == FiledSets(found, order, edges, name)
  }

  /** The filed sets and their markers are the same for every order of the relations iff marked pairs are told apart. */
  lemma RelationOrderCannotMatterExactlyWhen(found: Pool, order: seq<Key>, edges: seq<Edge>, name: Naming)
    requires RefsDistinct(found)
    ensures RelationOrderCannotMatter(found, order, edges, name) <==> MarksApart(found, edges, name)
  {
    if MarksApart(found, edges, name) {
      forall permuted: seq<Edge> | multiset(permuted) == multiset(edges)
        ensures FiledSets(found, order, permuted, name) == FiledSets(found, order, edges, name)
      {
        SameMultisetElements(permuted, edges);
        SameRelationSets(found, edges, permuted, name);
      }
    }
    if RelationOrderCannotMatter(found, order, edges, name) {
      forall e, f | e in MarkedAdds(found, edges) && f in MarkedAdds(found, edges)
                    && name(e.conflict) == name(f.conflict)
        ensures e == f
      {
        MarkInFront(found, order, edges, name, e);
        MarkInFront(found, order, edges, name, f);
      }
    }
  }

  lemma SameRelationSets(found: Pool, a: seq<Edge>, b: seq<Edge>, name: Naming)
    requires RefsDistinct(found) && MarksApart(found, a, name) && forall e :: e in a <==> e in b
    ensures RelationSets(found, a, name) == RelationSets(found, b, name)
  {
    forall x ensures x in MarkedAdds(found, a) <==> x in MarkedAdds(found, b) {
      MarkedAddsAre(found, a, x);
      MarkedAddsAre(found, b, x);
    }
    SameFiling(map[], name, MarkedAdds(found, a), MarkedAdds(found, b));
    SamePairs(found, a, b);
  }

  lemma SamePairs(found: Pool, a: seq<Edge>, b: seq<Edge>)
    requires forall e :: e in a <==> e in b
    ensures DirectedPairs(found, a) == DirectedPairs(found, b)
  {
    SameConflicts(found, a, b);
  }

  lemma MarkInFront(found: Pool, order: seq<Key>, edges: seq<Edge>, name: Naming, x: Entry)
    requires RefsDistinct(found) && RelationOrderCannotMatter(found, order, edges, name)
    requires x in MarkedAdds(found, edges)
    ensures var r := FiledSets(found, order, edges, name); name(x.conflict) in r && r[name(x.conflict)] == x
  {
    MarkedAddsAre(found, edges, x);
    var e :| e in edges && x in MarkEntries(found, e);
    var permuted := MovedInFront(edges, e);
    FrontMarkIsFiled(found, order, permuted, name, x);
  }

  lemma FrontMarkIsFiled(found: Pool, order: seq<Key>, edges: seq<Edge>, name: Naming, x: Entry)
    requires edges != [] && x in MarkEntries(found, edges[0])
    ensures var r := FiledSets(found, order, edges, name); name(x.conflict) in r && r[name(x.conflict)] == x
  {
    MarkedConcat(found, [edges[0]], edges[1..]);
    assert edges == [edges[0]] + edges[1..] && [edges[0]][..0] == [];
    assert MarkedAdds(found, [edges[0]]) == [x];
    var rest := MarkedAdds(found, edges[1..]);
    FirstKeeps(map[], name, x, rest);
    var marked := FiledAll(map[], name, [x] + rest);
    var directed := DirectedPairs(found, edges);
    FiledFacts(marked, name, ContradictoryAdds(directed, PairsInOrder(found, directed)));
    FiledFacts(RelationSets(found, edges, name), name, ChallengedAdds(found, order));
    FiledFacts(FiledAll(RelationSets(found, edges, name), name, ChallengedAdds(found, order)), name,
               OpposedAdds(found, SubjectsInOrder(found)));
  }

  // ---------------------------------------------------------------- the evidence of filed pairs

  /** The marker of a filed pair is that of the first relation that marks the pair. */
  lemma {:induction false} MarkerIsEvidence(found: Pool, edges: seq<Edge>, name: Naming, n: string)
    requires RefsDistinct(found)
    ensures var r := FiledAll(map[], name, MarkedAdds(found, edges));
            n in r ==> r[n].marker == Evidence(found, edges, r[n].conflict.members)
  {
    if edges != [] {
      var most, last := edges[..|edges| - 1], edges[|edges| - 1];
      MarkerIsEvidence(found, most, name, n);
      assert edges == most + [last];
      FiledConcat(map[], name, MarkedAdds(found, most), MarkEntries(found, last));
      OneMarkMore(found, most, last, name, n);
    }
  }

  lemma OneMarkMore(found: Pool, edges: seq<Edge>, e: Edge, name: Naming, n: string)
    requires RefsDistinct(found)
    requires var r := FiledAll(map[], name, MarkedAdds(found, edges));
             n in r ==> r[n].marker == Evidence(found, edges, r[n].conflict.members)
    ensures var r := FiledAll(FiledAll(map[], name, MarkedAdds(found, edges)), name, MarkEntries(found, e));
            n in r ==> r[n].marker == Evidence(found, edges + [e], r[n].conflict.members)
  {
    var was := FiledAll(map[], name, MarkedAdds(found, edges));
    var r := FiledAll(was, name, MarkEntries(found, e));
    FiledFacts(map[], name, MarkedAdds(found, edges));
    FiledFacts(was, name, MarkEntries(found, e));
    if n in r {
      var x := r[n];
      EvidenceMore(found, edges, e, x.conflict.members);
      if n in was {
        MarkedAddsAre(found, edges, x);
        var f :| f in edges && x in MarkEntries(found, f);
        MarkEntriesAre(found, f, x);
      } else {
        MarkEntriesAre(found, e, x);
        NotMarkedBefore(found, edges, name, x);
      }
    }
  }

  lemma NotMarkedBefore(found: Pool, edges: seq<Edge>, name: Naming, x: Entry)
    requires RefsDistinct(found) && x.conflict.reason == "related_to_conflict"
    requires name(x.conflict) !in FiledAll(map[], name, MarkedAdds(found, edges))
    ensures Evidence(found, edges, x.conflict.members).None?
  {
    EvidenceIsAMarker(found, edges, x.conflict.members);
    FiledFacts(map[], name, MarkedAdds(found, edges));
    forall e | e in edges ensures !Marks(found, e, x.conflict.members) {
      var y := Entry(x.conflict, Some(e.marker));
      MarkEntriesAre(found, e, y);
      MarkedAddsAre(found, edges, y);
      assert y in MarkedAdds(found, edges) ==> name(y.conflict) in FiledAll(map[], name, MarkedAdds(found, edges));
    }
  }

  // ---------------------------------------------------------------- which kind of conflict keeps a key

  /** Marked pairs are filed first, then contradictory ones, then challenged items, then opposed subjects. */
  function Stage(c: Conflict): int {
    if c.reason == "related_to_conflict" then 0
    else if c.reason == "contradictory_supersession" then 1
    else if c.reason == "challenged" then 2
    else 3
  }

  lemma StagesOf(found: Pool, order: seq<Key>, edges: seq<Edge>)
    requires RefsDistinct(found) && Elements(order, found.Keys)
    ensures var directed := DirectedPairs(found, edges);
            && (forall c :: c in AddedConflicts(MarkedAdds(found, edges)) ==> Stage(c) == 0)
            && (forall c :: c in AddedConflicts(ContradictoryAdds(directed, PairsInOrder(found, directed))) ==>
                  Stage(c) == 1)
            && (forall c :: c in AddedConflicts(ChallengedAdds(found, order)) ==> Stage(c) == 2)
            && (forall c :: c in AddedConflicts(OpposedAdds(found, SubjectsInOrder(found))) ==> Stage(c) == 3)
  {
    MarkedAddsFound(found, edges);
    ContradictoryAddsFound(found, edges);
    ChallengedAddsFound(found, order);
    OpposedAddsFound(found);
  }

  /** Whatever is added first keeps the key. */
  lemma FirstStageKeeps(name: Naming, first: seq<Entry>, later: seq<Entry>, c: Conflict, d: Conflict)
    requires c in AddedConflicts(first) && d !in AddedConflicts(first) && name(c) == name(d)
    ensures d !in ConflictsOf(FiledAll(map[], name, first + later))
  {
    FiledConcat(map[], name, first, later);
    FiledFacts(map[], name, first);
    FiledFacts(FiledAll(map[], name, first), name, later);
  }

  ghost predicate AllOfStage(adds: seq<Entry>, stage: int) {
    forall c :: c in AddedConflicts(adds) ==> Stage(c) == stage
  }

  lemma KeptByStage(name: Naming, m: seq<Entry>, n: seq<Entry>, o: seq<Entry>, p: seq<Entry>, c: Conflict, d: Conflict)
    requires AllOfStage(m, 0) && AllOfStage(n, 1) && AllOfStage(o, 2) && AllOfStage(p, 3)
    requires c in AddedConflicts(m) + AddedConflicts(n) + AddedConflicts(o) + AddedConflicts(p)
    requires Stage(c) < Stage(d) && name(c) == name(d)
    ensures d !in ConflictsOf(FiledAll(map[], name, m + n + o + p))
  {
    Regrouped(m, n, o, p);
    AddedTogether(m, n);
    AddedTogether(m + n, o);
    var first := if Stage(c) == 0 then m else if Stage(c) == 1 then m + n else m + n + o;
    var later := if Stage(c) == 0 then n + o + p else if Stage(c) == 1 then o + p else p;
    assert c in AddedConflicts(first) && d !in AddedConflicts(first);
    FirstStageKeeps(name, first, later, c, d);
  }

  lemma Regrouped<T>(m: seq<T>, n: seq<T>, o: seq<T>, p: seq<T>)
    ensures m + n + o + p == m + (n + o + p) && m + n + o + p == m + n + (o + p)
  {
  }

  /** Of two conflicts of different kinds with one key the one of the earlier kind is filed, and the other is not. */
  lemma EarlierKindKeepsTheKey(found: Pool, order: seq<Key>, edges: seq<Edge>, name: Naming, c: Conflict, d: Conflict)
    requires RefsDistinct(found) && Elements(order, found.Keys)
    requires c in Conflicts(found, edges) && d in Conflicts(found, edges) && name(c) == name(d)
    requires Stage(c) < Stage(d)
    ensures d !in ConflictsOf(FiledSets(found, order, edges, name))
  {
    var directed := DirectedPairs(found, edges);
    StagesOf(found, order, edges);
    MarkedAddsFound(found, edges);
    ContradictoryAddsFound(found, edges);
    ChallengedAddsFound(found, order);
    OpposedAddsFound(found);
    FiledSetsAre(found, order, edges, name);
    KeptByStage(name, MarkedAdds(found, edges), ContradictoryAdds(directed, PairsInOrder(found, directed)),
                ChallengedAdds(found, order), OpposedAdds(found, SubjectsInOrder(found)), c, d);
  }
}
