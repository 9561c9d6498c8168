/** Concrete compositions, from a list of candidates to what is shown, which tell where promises of the code end. */
module PackCases {
  import opened Sorting
  import opened PackModel
  import opened ConflictKeys
  import opened PackEvaluate
  import opened PackFiling
  import opened PackSettle
  import opened PackSelect
  import opened PackCompose
  import opened PackGuarantees
  import opened PackAccounting
  import opened PackConflicts
  import opened ExperiencePack
  import opened Wrappers

  const REASONS := {"related_to_conflict", "contradictory_supersession", "challenged", "opposite_polarity"}

  // ---------------------------------------------------------------- memory keys that keep everything apart

  lemma ReasonsAre(found: Pool, edges: seq<Edge>)
    ensures forall c :: c in Conflicts(found, edges) ==> c.reason in REASONS && c.members <= found.Keys
  {
    ConflictMembersFound(found, edges);
  }

  /**
   * Memory keys without bars and spaces that differ in more than case: then every conflict found is filed, and the
   * order of the candidates cannot matter.
   */
  lemma PlainKeysFileAll(found: Pool, order: seq<Key>, edges: seq<Edge>, fold: Casefold, hash: string -> string)
    requires RefsDistinct(found) && Elements(order, found.Keys)
    requires Injective(hash) && LeavesBars(fold) && ConflictKeys.Apart(REASONS, fold)
    requires ConflictKeys.Apart(found.Keys, fold)
    ensures var name := ConflictName(fold, hash);
            ConflictsOf(FiledSets(found, order, edges, name)) == Conflicts(found, edges)
            && ChallengesApart(found, edges, name)
  {
    var name := ConflictName(fold, hash);
    ReasonsAre(found, edges);
    KeysDifferWhen(Conflicts(found, edges), REASONS, found.Keys, fold, hash);
    AllFiledExactlyWhen(found, order, edges, name);
    ChallengesKeptApart(found, edges, name);
  }

  lemma ChallengesKeptApart(found: Pool, edges: seq<Edge>, name: Naming)
    requires KeysDiffer(name, Conflicts(found, edges))
    ensures ChallengesApart(found, edges, name)
  {
    forall k, l | k in found && l in found && found[k].challenged && found[l].challenged && k != l
      ensures name(Conflict("challenged", {k})) != name(Conflict("challenged", {l}))
    {
      var c, d := Conflict("challenged", {k}), Conflict("challenged", {l});
      assert c in ChallengedSets(found) && d in ChallengedSets(found);
      assert k in c.members && k !in d.members;
    }
  }

  // ---------------------------------------------------------------- a small composition

  function Lesson(text: string, ref: string, challenged: bool): Item {
    Item(2, 1, 0, false, 0.0, 0, Instruction, true, {}, text, Some(ref), None, false, false, challenged, None, None,
         map[])
  }

  /** The given room for conflicts, 24 items and the given bytes; encoding takes `bytes` bytes without the digits. */
  function Small(edges: seq<Edge>, name: Naming, room: nat, limit: nat, bytes: nat): Setting {
    Setting(edges, map[], Params((s: Section) => room, 24, limit), name, false, None, (s: Selection) => bytes)
  }

  /** A composition that is short enough drops nothing after the main loop. */
  lemma SmallIsKept(x: Inputs)
    requires InputsOk(x) && |x.candidates| <= x.params.maxItems
    requires !x.rawAllowed && (forall s :: x.bytes(s) + 4 <= x.params.maxPackBytes)
    ensures Composed(x).live == Admitted(x).live && Fallback(x, Capped(x)) == Composed(x)
    ensures Shown(x) == KeySet(Selected(x).kept)
  {
    FewSelected(x);
    SelectedIsShown(x);
    SelectedLive(x);
  }

  lemma SelectedLive(x: Inputs)
    requires InputsOk(x)
    ensures Selected(x).live == Admitted(x).live
  {
    OthersLoose(x);
    SelectedIs(x);
  }

  lemma FewSelected(x: Inputs)
    requires InputsOk(x)
    ensures |Selected(x).kept| <= |x.candidates|
  {
    SelectedFacts(x);
    DistinctSize(Selected(x).kept);
    FewerThan(KeySet(Selected(x).kept), x.candidates.Keys);
  }

  // ---------------------------------------------------------------- two challenged items under one key

  function Challenged(k: Key): Item { Lesson(k, "knowledge:" + k, true) }

  function Pair(k: Key, l: Key): Listing { [(k, Challenged(k)), (l, Challenged(l))] }

  lemma PairListed(k: Key, l: Key)
    requires k != l
    ensures KeysDistinct(Pair(k, l)) && KeysOf(Pair(k, l)) == [k, l]
    ensures PoolOf(Pair(k, l)) == map[k := Challenged(k), l := Challenged(l)] && RefsDistinct(PoolOf(Pair(k, l)))
    ensures multiset(Pair(l, k)) == multiset(Pair(k, l))
  {
    assert Pair(k, l)[0] in Pair(k, l) && Pair(k, l)[1] in Pair(k, l);
    assert Pair(k, l) == [(k, Challenged(k))] + [(l, Challenged(l))];
    assert Pair(l, k) == [(l, Challenged(l))] + [(k, Challenged(k))];
    assert ("knowledge:" + k)[10..] == k && ("knowledge:" + l)[10..] == l;
  }

  /** With no relations and no subjects only the challenged items are conflicts. */
  lemma OnlyChallenges(found: Pool)
    requires forall k :: k in found ==> found[k].subject.None?
    ensures Conflicts(found, []) == ChallengedSets(found)
  {
    assert Subjects(found) == {};
    assert OpposedSets(found) == {};
    assert MarkedSets(found, []) == {} && ContradictorySets(found, []) == {};
  }

  lemma NoRelationSets(found: Pool, name: Naming)
    ensures RelationSets(found, [], name) == map[]
  {
    assert DirectedPairs(found, []) == {};
    NoElements(PairsInOrder(found, {}));
  }

  /** Of two challenged items with one conflict key the first in the list is filed, and the other is in no conflict. */
  lemma FirstChallengeIsFiled(found: Pool, name: Naming, k: Key, l: Key)
    requires RefsDistinct(found) && found.Keys == {k, l} && k != l
    requires found[k].challenged && found[l].challenged && found[k].subject.None? && found[l].subject.None?
    requires name(Conflict("challenged", {k})) == name(Conflict("challenged", {l}))
    ensures ConflictsOf(FiledSets(found, [k, l], [], name)) == {Conflict("challenged", {k})}
  {
    var c, d := Conflict("challenged", {k}), Conflict("challenged", {l});
    var r := FiledSets(found, [k, l], [], name);
    NoRelationSets(found, name);
    FrontIsFiled(found, [k, l], [], name, k);
    HasConflict(r, name(c));
    OnlyChallenges(found);
    FiledOnce(found, [k, l], [], name);
    assert k in c.members && k !in d.members;
    assert ChallengedSets(found) == {c, d};
  }

  /** The one conflict that is filed is shown. */
  lemma OneConflictIsLive(x: Inputs, c: Conflict)
    requires InputsOk(x) && x.conflicts == {c} && |c.members| <= x.params.budget(CONFLICTS_AND_STALE)
    ensures Admitted(x).live == {c}
  {
    AdmittedFacts(x);
    OnlyOne(AdmissionOrder(x), c);
    FirstFits(x);
    RefusedExactlyWhen(x, 0);
    assert Admitted(x).live <= {c};
  }

  lemma OnlyOne(order: seq<Conflict>, c: Conflict)
    requires Elements(order, {c}) && |order| == |{c}|
    ensures |{c}| == 1 && order[0] == c
  {
    assert order[0] in order;
  }

  lemma FirstFits(x: Inputs)
    requires InputsOk(x) && x.conflicts != {}
    requires |AdmissionOrder(x)[0].members| <= x.params.budget(CONFLICTS_AND_STALE)
    ensures !OverflowsAt(x, 0)
  {
    var c := AdmissionOrder(x)[0];
    assert AdmissionOrder(x)[..0] == [];
    assert c.members - Nothing(x.conflicts).keys == c.members;
  }

  /** Of two listed challenged items the first is in the one conflict shown, and the second remains an instruction. */
  ghost predicate FirstIsTheConflict(listed: Listing, s: Setting, k: Key, l: Key) {
    && KeysDistinct(listed) && KeysOf(listed) == [k, l] && SettingOk(PoolOf(listed), s)
    && PackFor(listed, s).selection.live == {Conflict("challenged", {k})}
    && var items := InputsOf(PoolOf(listed), [k, l], s).candidates;
       k in items && l in items && items[k].role == ConflictRole && items[l].role == Instruction
  }

  lemma ListedFirstIsTheConflict(name: Naming, k: Key, l: Key)
    requires k != l && name(Conflict("challenged", {k})) == name(Conflict("challenged", {l}))
    ensures FirstIsTheConflict(Pair(k, l), Small([], name, 2, 32768, 0), k, l)
  {
    var s, found := Small([], name, 2, 32768, 0), PoolOf(Pair(k, l));
    PairListed(k, l);
    PairInputs(s, k, l);
    RolesOfChallenges(found, FiledConflicts(found, [k, l], s), k, l);
    LiveConflictOfSmall(InputsOf(found, [k, l], s), Conflict("challenged", {k}));
  }

  /** What compose works on for the two challenged items. */
  lemma PairInputs(s: Setting, k: Key, l: Key)
    requires k != l && s.name(Conflict("challenged", {k})) == s.name(Conflict("challenged", {l}))
    requires s.edges == [] && s.requested == map[] && s.rows.None?
    ensures KeysDistinct(Pair(k, l)) && SettingOk(PoolOf(Pair(k, l)), s)
    ensures var x := InputsOf(PoolOf(Pair(k, l)), [k, l], s);
            && InputsOk(x) && x.conflicts == {Conflict("challenged", {k})} && |x.candidates| <= 2
  {
    PairListed(k, l);
    var found := PoolOf(Pair(k, l));
    FirstChallengeIsFiled(found, s.name, k, l);
    KeysListed(Pair(k, l));
    InputsAreOk(found, [k, l], s);
    EvaluatedKeys(found, [], map[], {Conflict("challenged", {k})});
    TwoKeys(InputsOf(found, [k, l], s).candidates, k, l);
  }

  lemma TwoKeys(pool: Pool, k: Key, l: Key)
    requires pool.Keys == {k, l}
    ensures |pool| <= 2
  {
    assert |pool| == |pool.Keys|;
  }

  lemma EvaluatedKeys(found: Pool, edges: seq<Edge>, requested: Premises, filed: set<Conflict>)
    ensures Evaluated(found, edges, requested, filed).Keys == found.Keys
  {
  }

  lemma LiveConflictOfSmall(x: Inputs, c: Conflict)
    requires InputsOk(x) && x.conflicts == {c} && |c.members| <= x.params.budget(CONFLICTS_AND_STALE)
    requires |x.candidates| <= x.params.maxItems
    requires !x.rawAllowed && (forall s :: x.bytes(s) + 4 <= x.params.maxPackBytes)
    ensures Composed(x).live == {c}
  {
    OneConflictIsLive(x, c);
    SmallIsKept(x);
  }

  lemma RolesOfChallenges(found: Pool, filed: set<Conflict>, k: Key, l: Key)
    requires k in found && l in found && k != l && filed == {Conflict("challenged", {k})}
    requires found[k].role == found[l].role == Instruction && found[k].premises == found[l].premises == map[]
    ensures k in Evaluated(found, [], map[], filed) && l in Evaluated(found, [], map[], filed)
    ensures Evaluated(found, [], map[], filed)[k].role == ConflictRole
    ensures Evaluated(found, [], map[], filed)[l].role == Instruction
  {
    assert Members(filed) == {k};
    assert !Predecessor(found, [], k) && !Predecessor(found, [], l);
    EvaluatedAt(found, [], map[], filed, k);
    OthersKeepTheirRole(found, [], map[], filed, l);
  }

  /**
   * Of two challenged candidates with one conflict key, whichever is listed first becomes the conflict, the other
   * remains an instruction, and the packs differ.
   */
  lemma OrderOfChallengesShows(name: Naming, k: Key, l: Key)
    requires k != l && name(Conflict("challenged", {k})) == name(Conflict("challenged", {l}))
    ensures multiset(Pair(l, k)) == multiset(Pair(k, l))
    ensures var s := Small([], name, 2, 32768, 0);
            && FirstIsTheConflict(Pair(k, l), s, k, l) && FirstIsTheConflict(Pair(l, k), s, l, k)
            && PackFor(Pair(k, l), s) != PackFor(Pair(l, k), s)
  {
    PairListed(k, l);
    ListedFirstIsTheConflict(name, k, l);
    ListedFirstIsTheConflict(name, l, k);
    ChallengesDiffer(k, l);
  }

  lemma ChallengesDiffer(k: Key, l: Key)
    requires k != l
    ensures {Conflict("challenged", {k})} != {Conflict("challenged", {l})}
  {
    assert k in Conflict("challenged", {k}).members && k !in Conflict("challenged", {l}).members;
    assert Conflict("challenged", {k}) in {Conflict("challenged", {k})};
  }

  const ONE := "Lesson-1"
  const TWO := "lesson-1"

  /** "Lesson-1" and "lesson-1" are two such candidates, because keys of conflicts are folded before they are hashed. */
  lemma CaseDecidesThePack(fold: Casefold, hash: string -> string)
    requires fold('L') == fold('l')
    ensures var s := Small([], ConflictName(fold, hash), 2, 32768, 0);
            && FirstIsTheConflict(Pair(ONE, TWO), s, ONE, TWO) && FirstIsTheConflict(Pair(TWO, ONE), s, TWO, ONE)
            && PackFor(Pair(ONE, TWO), s) != PackFor(Pair(TWO, ONE), s)
  {
    OneAndTwoShareAKey(fold, hash);
    OrderOfChallengesShows(ConflictName(fold, hash), ONE, TWO);
  }

  lemma OneAndTwoShareAKey(fold: Casefold, hash: string -> string)
    requires fold('L') == fold('l')
    ensures var name := ConflictName(fold, hash);
            ONE != TWO && name(Conflict("challenged", {ONE})) == name(Conflict("challenged", {TWO}))
  {
    CaseIsLost(fold, hash, "challenged", 'L', 'l', "esson-1");
    assert ['L'] + "esson-1" == ONE && ['l'] + "esson-1" == TWO;
    assert ONE[0] != TWO[0];
  }

  // ---------------------------------------------------------------- two marked pairs that share an item

  function Decided(k: Key): Item { Lesson(k, "decision:" + k, false) }

  function Triple(a: Key, b: Key, c: Key): Listing { [(a, Decided(a)), (b, Decided(b)), (c, Decided(c))] }

  function Mark(a: Key, b: Key, marker: string): Edge {
    Edge(Endpoint("decision", a), Endpoint("decision", b), "related_to", true, marker)
  }

  function Linked(a: Key, b: Key, c: Key): seq<Edge> { [Mark(a, b, "relation:1"), Mark(b, c, "relation:2")] }

  function PairOf(a: Key, b: Key): Conflict { Conflict("related_to_conflict", {a, b}) }

  /** The items under the given keys, and nothing else. */
  ghost predicate AllDecided(found: Pool) { forall k :: k in found ==> found[k] == Decided(k) }

  lemma DecidedRefs(found: Pool)
    requires AllDecided(found)
    ensures RefsDistinct(found) && forall k: Key, l: Key :: Owns(found, k, "decision" + ":" + l) <==>
              k in found && k == l
  {
    forall k: Key, l: Key ensures Owns(found, k, "decision" + ":" + l) <==> k in found && k == l {
      SameRef(k, l);
    }
    forall k, l | k in found && l in found && found[k].ref == found[l].ref ensures k == l {
      SameRef(k, l);
    }
  }

  lemma SameRef(k: Key, l: Key)
    ensures "decision:" + k == "decision" + ":" + l <==> k == l
    ensures "decision:" + k == "decision:" + l <==> k == l
  {
    assert ("decision:" + k)[9..] == k && ("decision" + ":" + l)[9..] == l && ("decision:" + l)[9..] == l;
    assert "decision" + ":" == "decision:";
  }

  lemma MarkRelates(found: Pool, a: Key, b: Key, marker: string)
    requires AllDecided(found) && a in found && b in found && a != b
    ensures forall x, y :: Relates(found, Mark(a, b, marker), x, y) <==> x == a && y == b
  {
    DecidedRefs(found);
    SameRef(a, b);
    assert Ref(Mark(a, b, marker).source) == "decision" + ":" + a &&
           Ref(Mark(a, b, marker).target) == "decision" + ":" + b;
    assert ("decision" + ":" + a)[9..] == a && ("decision" + ":" + b)[9..] == b;
  }

  /** Marked relations between distinct items make their pairs conflicts, and nothing else does. */
  lemma LinkedConflicts(found: Pool, a: Key, b: Key, c: Key)
    requires AllDecided(found) && found.Keys == {a, b, c} && a != b && b != c
    ensures Conflicts(found, Linked(a, b, c)) == {PairOf(a, b), PairOf(b, c)}
  {
    var edges := Linked(a, b, c);
    MarkRelates(found, a, b, "relation:1");
    MarkRelates(found, b, c, "relation:2");
    assert edges[0] in edges && edges[1] in edges;
    OnlyMarks(found, edges);
    assert MarkedSets(found, edges) == {PairOf(a, b), PairOf(b, c)} by {
      assert Relates(found, edges[0], a, b) && Relates(found, edges[1], b, c);
    }
  }

  lemma OnlyMarks(found: Pool, edges: seq<Edge>)
    requires AllDecided(found) && forall e :: e in edges ==> e.relation == "related_to"
    ensures Conflicts(found, edges) == MarkedSets(found, edges)
  {
    assert Subjects(found) == {};
    assert OpposedSets(found) == {} && ChallengedSets(found) == {} && ContradictorySets(found, edges) == {};
  }

  lemma TripleListed(a: Key, b: Key, c: Key)
    requires a != b && b != c && a != c
    ensures KeysDistinct(Triple(a, b, c)) && PoolOf(Triple(a, b, c)).Keys == {a, b, c}
    ensures AllDecided(PoolOf(Triple(a, b, c)))
  {
    var t := Triple(a, b, c);
    assert t[0] in t && t[1] in t && t[2] in t;
  }

  /** What compose works on for the three items and their two marked relations, with room for two conflict members. */
  ghost function Linking(a: Key, b: Key, c: Key, name: Naming): Inputs
    requires KeysDistinct(Triple(a, b, c))
  {
    InputsOf(PoolOf(Triple(a, b, c)), KeysOf(Triple(a, b, c)), Small(Linked(a, b, c), name, 2, 32768, 0))
  }

  lemma LinkingIs(a: Key, b: Key, c: Key, name: Naming)
    requires a != b && b != c && a != c && name(PairOf(a, b)) != name(PairOf(b, c))
    ensures KeysDistinct(Triple(a, b, c)) && InputsOk(Linking(a, b, c, name))
    ensures Linking(a, b, c, name).conflicts == {PairOf(a, b), PairOf(b, c)}
    ensures Linking(a, b, c, name).candidates.Keys == {a, b, c}
  {
    TripleListed(a, b, c);
    var found, order := PoolOf(Triple(a, b, c)), KeysOf(Triple(a, b, c));
    DecidedRefs(found);
    KeysListed(Triple(a, b, c));
    InputsAreOk(found, order, Small(Linked(a, b, c), name, 2, 32768, 0));
    LinkedFiled(found, order, a, b, c, name);
    EvaluatedKeys(found, Linked(a, b, c), map[], {PairOf(a, b), PairOf(b, c)});
  }

  lemma LinkedFiled(found: Pool, order: seq<Key>, a: Key, b: Key, c: Key, name: Naming)
    requires AllDecided(found) && RefsDistinct(found) && found.Keys == {a, b, c} && a != b && b != c
    requires Elements(order, found.Keys) && name(PairOf(a, b)) != name(PairOf(b, c))
    ensures ConflictsOf(FiledSets(found, order, Linked(a, b, c), name)) == {PairOf(a, b), PairOf(b, c)}
  {
    LinkedConflicts(found, a, b, c);
    TwoNames(name, PairOf(a, b), PairOf(b, c));
    AllFiledExactlyWhen(found, order, Linked(a, b, c), name);
  }

  lemma TwoNames(name: Naming, p: Conflict, q: Conflict)
    requires name(p) != name(q)
    ensures KeysDiffer(name, {p, q})
  {
  }

  /** Both of two conflicts are tried, in one order or the other. */
  lemma BothTried(x: Inputs, p: Conflict, q: Conflict)
    requires InputsOk(x) && x.conflicts == {p, q} && p != q
    ensures |x.conflicts| == 2 && (AdmissionOrder(x) == [p, q] || AdmissionOrder(x) == [q, p])
  {
    BothInOrder(AdmissionOrder(x), p, q);
  }

  lemma BothInOrder(order: seq<Conflict>, p: Conflict, q: Conflict)
    requires p != q && |order| == |{p, q}| && Elements(order, {p, q})
    requires forall i, j :: 0 <= i < j < |order| ==> order[i] != order[j]
    ensures |{p, q}| == 2 && (order == [p, q] || order == [q, p])
  {
    assert order[0] in order && order[1] in order;
  }

  /**
   * Three decisions and the marked relations a-b and b-c, evaluated and composed with room for two conflict members:
   * one of the two conflicts is shown in part.
   */
  lemma SharedMemberIsShownAlone(a: Key, b: Key, c: Key, name: Naming) returns (cut: Conflict)
    requires a != b && b != c && a != c && name(PairOf(a, b)) != name(PairOf(b, c))
    ensures KeysDistinct(Triple(a, b, c)) && InputsOk(Linking(a, b, c, name))
    ensures cut in Conflicts(PoolOf(Triple(a, b, c)), Linked(a, b, c)) && Split(cut, Shown(Linking(a, b, c, name)))
  {
    LinkingIs(a, b, c, name);
    TripleListed(a, b, c);
    LinkedConflicts(PoolOf(Triple(a, b, c)), a, b, c);
    PairsOverlap(a, b, c);
    cut := OneIsCut(Linking(a, b, c, name), PairOf(a, b), PairOf(b, c));
  }

  /** Room for two conflict members, and no other limit in the way. */
  ghost predicate RoomForTwo(x: Inputs) {
    && x.params.budget(CONFLICTS_AND_STALE) == 2 <= x.params.maxItems
    && !x.rawAllowed && (forall s :: x.bytes(s) + 4 <= x.params.maxPackBytes)
  }

  lemma OneIsCut(x: Inputs, p: Conflict, q: Conflict) returns (cut: Conflict)
    requires InputsOk(x) && x.conflicts == {p, q} && x.candidates.Keys == p.members + q.members
    requires |p.members| == |q.members| == 2 && !(p.members <= q.members) && !(q.members <= p.members)
    requires !(p.members !! q.members)
    requires RoomForTwo(x)
    ensures (cut == p || cut == q) && Split(cut, Shown(x))
  {
    BothTried(x, p, q);
    cut := if AdmissionOrder(x) == [p, q] then q else p;
    if cut == q {
      SecondOfTwoIsCut(x, p, q);
    } else {
      SecondOfTwoIsCut(x, q, p);
    }
  }

  lemma PairsOverlap(a: Key, b: Key, c: Key)
    requires a != b && b != c && a != c
    ensures var p, q := PairOf(a, b), PairOf(b, c);
            && p != q && |p.members| == |q.members| == 2 && p.members + q.members == {a, b, c}
            && !(p.members <= q.members) && !(q.members <= p.members) && !(p.members !! q.members)
  {
    assert a in PairOf(a, b).members && a !in PairOf(b, c).members;
    assert c in PairOf(b, c).members && c !in PairOf(a, b).members;
    assert b in PairOf(a, b).members && b in PairOf(b, c).members;
  }

  lemma SecondOfTwoIsCut(x: Inputs, first: Conflict, second: Conflict)
    requires InputsOk(x) && AdmissionOrder(x) == [first, second]
    requires x.candidates.Keys <= first.members + second.members && |first.members| == 2
    requires !(second.members <= first.members) && !(first.members !! second.members)
    requires RoomForTwo(x)
    ensures Split(second, Shown(x))
  {
    SecondShownInPart(x, first, second);
  }

  // ---------------------------------------------------------------- two markers on one pair

  /** Two relations mark one pair, in both directions; the evidence is that of the first of them. */
  lemma FirstMarkerIsTheEvidence(a: Key, b: Key, name: Naming, order: seq<Key>)
    requires a != b
    ensures var found := map[a := Decided(a), b := Decided(b)];
            var there, back := Mark(a, b, "relation:1"), Mark(b, a, "relation:2");
            var r, t := FiledSets(found, order, [there, back], name), FiledSets(found, order, [back, there], name);
            var n := name(PairOf(a, b));
            n in r && n in t && r[n].marker == Some("relation:1") && t[n].marker == Some("relation:2")
  {
    var found := map[a := Decided(a), b := Decided(b)];
    var there, back := Mark(a, b, "relation:1"), Mark(b, a, "relation:2");
    DecidedRefs(found);
    MarkEntryOf(found, a, b, "relation:1");
    MarkEntryOf(found, b, a, "relation:2");
    FrontMarkIsFiled(found, order, [there, back], name, Entry(PairOf(a, b), Some("relation:1")));
    FrontMarkIsFiled(found, order, [back, there], name, Entry(PairOf(a, b), Some("relation:2")));
  }

  lemma MarkEntryOf(found: Pool, a: Key, b: Key, marker: string)
    requires AllDecided(found) && a in found && b in found && a != b
    ensures Entry(PairOf(a, b), Some(marker)) in MarkEntries(found, Mark(a, b, marker))
    ensures PairOf(a, b) == PairOf(b, a)
  {
    DecidedRefs(found);
    MarkRelates(found, a, b, marker);
    assert Relates(found, Mark(a, b, marker), a, b);
    assert PairOf(a, b).members == PairOf(b, a).members;
    MarkEntriesAre(found, Mark(a, b, marker), Entry(PairOf(a, b), Some(marker)));
  }

  // ---------------------------------------------------------------- a pack of 40001 bytes

  /** At a limit of 40000 a pack of 39996 bytes and a token count of five digits exceeds its limit. */
  lemma OneByteTooMany(name: Naming, k: Key, l: Key)
    requires k != l && name(Conflict("challenged", {k})) == name(Conflict("challenged", {l}))
    ensures var s := Small([], name, 2, 40000, 39996);
            && KeysDistinct(Pair(k, l)) && SettingOk(PoolOf(Pair(k, l)), s)
            && PackFor(Pair(k, l), s).selection.kept != [] && PackFor(Pair(k, l), s).bytes == 40001
  {
    var s := Small([], name, 2, 40000, 39996);
    PairListed(k, l);
    PairInputs(s, k, l);
    FiveDigits(InputsOf(PoolOf(Pair(k, l)), [k, l], s), Conflict("challenged", {k}), k);
  }

  lemma FiveDigits(x: Inputs, c: Conflict, k: Key)
    requires InputsOk(x) && x.conflicts == {c} && c.members == {k} && 1 <= x.params.budget(CONFLICTS_AND_STALE)
    requires |x.candidates| <= 2 && x.params.maxItems == 24 && !x.rawAllowed && x.params.maxPackBytes == 40000
    requires forall s :: x.bytes(s) == 39996
    ensures Composed(x).kept != [] && PackBytes(x, Composed(x)) == 40001
  {
    LiveConflictOfSmall(x, c);
    LiveIsShown(x, c, k);
    FiveDigitsMore(x, Composed(x));
  }

  lemma FiveDigitsMore(x: Inputs, s: Selection)
    requires x.bytes(s) == 39996
    ensures PackBytes(x, s) == 40001
  {
    assert Tokens(x, s) == 10000;
    DigitsOf10000();
  }

  lemma LiveIsShown(x: Inputs, c: Conflict, k: Key)
    requires InputsOk(x) && c in Composed(x).live && k in c.members
    ensures Composed(x).kept != []
  {
    ConflictsShownWhole(x);
    assert k in KeySet(Composed(x).kept);
  }

  lemma DigitsOf10000()
    ensures Digits(10000) == 5
  {
    assert Digits(10000) == 1 + Digits(1000) && Digits(1000) == 1 + Digits(100) && Digits(100) == 1 + Digits(10);
  }
}
