/**
 * Premise, supersession and conflict evaluation of the candidates: no winner is ever picked, nothing gains authority.
 */
module PackEvaluate {
  import opened PackModel
  import opened Wrappers

  datatype Endpoint = Endpoint(kind: string, key: Key)

  /** A relation row; `marked` says that consolidation marked it as a conflict, `marker` names it in evidence lists. */
  datatype Edge = Edge(source: Endpoint, target: Endpoint, relation: string, marked: bool, marker: string)

  type Premises = map<string, string>

  const DEMOTABLE := {Instruction, Candidate}

  function Ref(e: Endpoint): string { e.kind + ":" + e.key }

  // ---------------------------------------------------------------- single items

  /** Shared premise keys whose requested value the item does not allow. */
  predicate Mismatch(i: Item, requested: Premises) {
    exists p :: p in i.premises && p in requested && requested[p] !in i.premises[p]
  }

  predicate Comparable(i: Item, requested: Premises) {
    exists p :: p in i.premises && p in requested
  }

  /** _demote */
  function WithRole(i: Item, role: Role): Item {
    if i.role in DEMOTABLE then i.(role := role, authoritative := false) else i
  }

  function WithFlag(i: Item, flag: string): Item { i.(flags := i.flags + {flag}) }

  function AfterPremises(i: Item, requested: Premises): Item {
    if Mismatch(i, requested) then
      var flagged := WithFlag(i, "premise_mismatch");
      if i.role in DEMOTABLE then WithRole(flagged, WarningExample).(section := CONFLICTS_AND_STALE) else flagged
    else if Comparable(i, requested) then i
    else WithFlag(i, "premise_unverified")
  }

  function AsPredecessor(i: Item): Item { WithRole(WithFlag(i, "historical"), EvidenceRef) }

  function InConflict(i: Item): Item {
    WithFlag(WithRole(i, ConflictRole), "conflict").(section := CONFLICTS_AND_STALE)
  }

  // ---------------------------------------------------------------- relations

  /** Items by reference; references are distinct because they are made of kind and memory key. */
  ghost predicate RefsDistinct(found: Pool) {
    forall a, b :: a in found && b in found && found[a].ref.Some? && found[a].ref == found[b].ref ==> a == b
  }

  predicate Owns(found: Pool, k: Key, ref: string) { k in found && found[k].ref == Some(ref) }

  predicate Relates(found: Pool, e: Edge, a: Key, b: Key) {
    Owns(found, a, Ref(e.source)) && Owns(found, b, Ref(e.target)) && Ref(e.source) != Ref(e.target)
  }

  predicate Supersession(e: Edge) { e.relation in {"supersedes", "superseded_by"} }

  /** The edge says, in either of its two forms, that `next` supersedes `previous`. */
  predicate Says(found: Pool, e: Edge, previous: Key, next: Key) {
    && Supersession(e)
    && if e.relation == "supersedes" then Relates(found, e, next, previous) else Relates(found, e, previous, next)
  }

  predicate Superseded(found: Pool, edges: seq<Edge>, previous: Key, next: Key) {
    exists e :: e in edges && Says(found, e, previous, next)
  }

  /** Superseded by an item that it does not supersede in turn. */
  predicate Predecessor(found: Pool, edges: seq<Edge>, k: Key) {
    exists n :: n in found && Superseded(found, edges, k, n) && !Superseded(found, edges, n, k)
  }

  // ---------------------------------------------------------------- conflict sets

  function MarkedSets(found: Pool, edges: seq<Edge>): set<Conflict> {
    set e, a, b | e in edges && a in found && b in found && e.relation == "related_to" && e.marked &&
      Relates(found, e, a, b) ::
      Conflict("related_to_conflict", {a, b})
  }

  /** The edge marks these two items as a conflict, in either direction. */
  predicate Marks(found: Pool, e: Edge, members: set<Key>) {
    && e.relation == "related_to" && e.marked
    && exists a, b :: a in found && b in found && Relates(found, e, a, b) && members == {a, b}
  }

  /** The evidence of a marked conflict: the marker of the first edge that marks it. */
  function Evidence(found: Pool, edges: seq<Edge>, members: set<Key>): Option<string> {
    if edges == [] then None
    else if Marks(found, edges[0], members) then Some(edges[0].marker)
    else Evidence(found, edges[1..], members)
  }

  function ContradictorySets(found: Pool, edges: seq<Edge>): set<Conflict> {
    set a, b | a in found && b in found && Superseded(found, edges, a, b) && Superseded(found, edges, b, a) ::
      Conflict("contradictory_supersession", {a, b})
  }

  function ChallengedSets(found: Pool): set<Conflict> {
    set k | k in found && found[k].challenged :: Conflict("challenged", {k})
  }

  function SubjectGroup(found: Pool, subject: string): set<Key> {
    set k | k in found && found[k].subject == Some(subject) && found[k].polarity.Some?
  }

  predicate Opposed(found: Pool, group: set<Key>) {
    && (forall k :: k in group && k in found ==> found[k].polarity in {Some("positive"), Some("negative")})
    && (exists k :: k in group && k in found && found[k].polarity == Some("positive"))
    && (exists k :: k in group && k in found && found[k].polarity == Some("negative"))
  }

  function Subjects(found: Pool): set<string> {
    set k | k in found && found[k].subject.Some? && found[k].polarity.Some? :: found[k].subject.value
  }

  function OpposedSets(found: Pool): set<Conflict> {
    set s | s in Subjects(found) && Opposed(found, SubjectGroup(found, s)) ::
      Conflict("opposite_polarity", SubjectGroup(found, s))
  }

  function Conflicts(found: Pool, edges: seq<Edge>): set<Conflict> {
    MarkedSets(found, edges) + ContradictorySets(found, edges) + ChallengedSets(found) + OpposedSets(found)
  }

  // ---------------------------------------------------------------- the evaluated candidates

  function Judged(i: Item, requested: Premises, predecessor: bool, conflicting: bool): Item {
    var compared := AfterPremises(i, requested);
    var related := if predecessor then AsPredecessor(compared) else compared;
    if conflicting then InConflict(related) else related
  }

  /** `filed` are the conflict sets that evaluate ends up with; their members are marked. */
  function Evaluated(found: Pool, edges: seq<Edge>, requested: Premises, filed: set<Conflict>): Pool {
    var members := Members(filed);
    map k | k in found :: Judged(found[k], requested, Predecessor(found, edges, k), k in members)
  }

  // ---------------------------------------------------------------- what evaluation guarantees

  lemma ConflictMembersFound(found: Pool, edges: seq<Edge>)
    ensures ConflictsOk(found, Conflicts(found, edges))
  {
    forall c | c in Conflicts(found, edges) ensures c.members != {} && c.members <= found.Keys {
      if c in OpposedSets(found) {
        var s :| s in Subjects(found) && Opposed(found, SubjectGroup(found, s)) &&
          c == Conflict("opposite_polarity", SubjectGroup(found, s));
        var k :| k in SubjectGroup(found, s);
      }
    }
  }

  /** j is i with flags added and, at most, authority and place taken away. */
  predicate Lowers(i: Item, j: Item) {
    && j.tier == i.tier && j.scopeRank == i.scopeRank && j.digest == i.digest && j.ref == i.ref && j.group == i.group
    && i.flags <= j.flags && (j.authoritative ==> i.authoritative)
    && (j.role == i.role || (i.role in DEMOTABLE && j.role !in DEMOTABLE))
    && (j.section == i.section || j.section == CONFLICTS_AND_STALE)
  }

  /** A flag more, and for an instructing role another one: that only lowers. */
  lemma FlagAndRoleLower(i: Item, flag: string, role: Role)
    requires role !in DEMOTABLE
    ensures Lowers(i, WithFlag(i, flag)) && Lowers(i, WithRole(WithFlag(i, flag), role))
    ensures WithRole(WithFlag(i, flag), role).role !in DEMOTABLE && flag in WithRole(WithFlag(i, flag), role).flags
  {
  }

  lemma PremisesLower(i: Item, requested: Premises)
    ensures Lowers(i, AfterPremises(i, requested))
    ensures Mismatch(i, requested) ==>
              var j := AfterPremises(i, requested);
              j.role !in DEMOTABLE && "premise_mismatch" in j.flags &&
                (i.role in DEMOTABLE ==> j.section == CONFLICTS_AND_STALE)
  {
    FlagAndRoleLower(i, "premise_mismatch", WarningExample);
    FlagAndRoleLower(i, "premise_unverified", WarningExample);
  }

  lemma PredecessorLowers(i: Item)
    ensures Lowers(i, AsPredecessor(i)) && AsPredecessor(i).section == i.section
  {
  }

  lemma ConflictLowers(i: Item)
    ensures Lowers(i, InConflict(i))
    ensures InConflict(i).role !in DEMOTABLE && InConflict(i).section == CONFLICTS_AND_STALE
    ensures "conflict" in InConflict(i).flags
  {
  }

  lemma JudgedLowers(i: Item, requested: Premises, predecessor: bool, conflicting: bool)
    ensures var j := Judged(i, requested, predecessor, conflicting);
            && Lowers(i, j)
            && (conflicting ==> j.role !in DEMOTABLE && j.section == CONFLICTS_AND_STALE && "conflict" in j.flags)
            && (Mismatch(i, requested) ==>
                  && j.role !in DEMOTABLE && "premise_mismatch" in j.flags
                  && (i.role in DEMOTABLE ==> j.section == CONFLICTS_AND_STALE))
  {
    var compared := AfterPremises(i, requested);
    var related := if predecessor then AsPredecessor(compared) else compared;
    PremisesLower(i, requested);
    PredecessorLowers(compared);
    ConflictLowers(related);
  }

  lemma EvaluatedAt(found: Pool, edges: seq<Edge>, requested: Premises, filed: set<Conflict>, k: Key)
    requires k in found
    ensures k in Evaluated(found, edges, requested, filed)
    ensures Evaluated(found, edges, requested, filed)[k] ==
              Judged(found[k], requested, Predecessor(found, edges, k), k in Members(filed))
  {
  }

  /**
   * No side of a filed conflict keeps an instructing role or its section, and none is favoured by match, fusion or
   * recency.
   */
  lemma ConflictHasNoWinner(found: Pool, edges: seq<Edge>, requested: Premises, filed: set<Conflict>, k: Key)
    requires k in found && k in Members(filed)
    ensures k in Evaluated(found, edges, requested, filed)
    ensures Evaluated(found, edges, requested, filed)[k].role !in DEMOTABLE
    ensures RankOf(Evaluated(found, edges, requested, filed), k) ==
              Rank(CONFLICTS_AND_STALE, found[k].tier, found[k].scopeRank, 0, 0.0, 0, k)
    ensures "conflict" in Evaluated(found, edges, requested, filed)[k].flags
  {
    EvaluatedAt(found, edges, requested, filed, k);
    JudgedLowers(found[k], requested, Predecessor(found, edges, k), true);
  }

  /** An item of no filed conflict that is neither superseded nor at odds with the premises keeps its role. */
  lemma OthersKeepTheirRole(found: Pool, edges: seq<Edge>, requested: Premises, filed: set<Conflict>, k: Key)
    requires k in found && k !in Members(filed) && !Predecessor(found, edges, k) && !Mismatch(found[k], requested)
    ensures k in Evaluated(found, edges, requested, filed)
    ensures var j := Evaluated(found, edges, requested, filed)[k];
            j.role == found[k].role && j.section == found[k].section && j.authoritative == found[k].authoritative
  {
    EvaluatedAt(found, edges, requested, filed, k);
  }

  /** Evaluation changes no tier, scope, text, reference or group, and it can only take authority away. */
  lemma EvaluationGivesNoAuthority(found: Pool, edges: seq<Edge>, requested: Premises, filed: set<Conflict>, k: Key)
    requires k in found
    ensures k in Evaluated(found, edges, requested, filed)
    ensures Lowers(found[k], Evaluated(found, edges, requested, filed)[k])
  {
    EvaluatedAt(found, edges, requested, filed, k);
    JudgedLowers(found[k], requested, Predecessor(found, edges, k), k in Members(filed));
  }

  /** An instruction whose premises the request contradicts is never shown as one. */
  lemma MismatchIsNeverInstruction(found: Pool, edges: seq<Edge>, requested: Premises, filed: set<Conflict>, k: Key)
    requires k in found && Mismatch(found[k], requested)
    ensures k in Evaluated(found, edges, requested, filed)
    ensures var j := Evaluated(found, edges, requested, filed)[k];
            && j.role !in DEMOTABLE && "premise_mismatch" in j.flags
            && (found[k].role in DEMOTABLE ==> j.section == CONFLICTS_AND_STALE)
  {
    EvaluatedAt(found, edges, requested, filed, k);
    JudgedLowers(found[k], requested, Predecessor(found, edges, k), k in Members(filed));
  }

  /** What the selection needs of its candidates. */
  lemma EvaluatedIsDemoted(found: Pool, edges: seq<Edge>, requested: Premises, filed: set<Conflict>)
    requires filed <= Conflicts(found, edges)
    ensures Evaluated(found, edges, requested, filed).Keys == found.Keys
    ensures ConflictsOk(Evaluated(found, edges, requested, filed), filed)
    ensures forall k :: k in Members(filed) ==>
                          && k in Evaluated(found, edges, requested, filed)
                          && Evaluated(found, edges, requested, filed)[k].section == CONFLICTS_AND_STALE
                          && "conflict" in Evaluated(found, edges, requested, filed)[k].flags
  {
    ConflictMembersFound(found, edges);
    forall k | k in Members(filed)
      ensures && k in Evaluated(found, edges, requested, filed)
              && Evaluated(found, edges, requested, filed)[k].section == CONFLICTS_AND_STALE
              && "conflict" in Evaluated(found, edges, requested, filed)[k].flags
    {
      var c :| c in filed && k in c.members;
      assert c in Conflicts(found, edges);
      ConflictHasNoWinner(found, edges, requested, filed, k);
    }
  }

  // ---------------------------------------------------------------- the evidence of marked conflicts

  lemma {:induction false} EvidenceMore(found: Pool, edges: seq<Edge>, e: Edge, members: set<Key>)
    ensures Evidence(found, edges + [e], members) ==
              if Evidence(found, edges, members).Some? then Evidence(found, edges, members)
              else if Marks(found, e, members) then Some(e.marker)
              else None
  {
    if edges == [] {
      assert [e][1..] == [];
    } else {
      EvidenceMore(found, edges[1..], e, members);
      assert (edges + [e])[1..] == edges[1..] + [e];
    }
  }

  /** It is the marker of an edge that marks the conflict, if there is one. */
  lemma {:induction false} EvidenceIsAMarker(found: Pool, edges: seq<Edge>, members: set<Key>)
    ensures Evidence(found, edges, members).Some? ==>
              exists e :: e in edges && Marks(found, e, members) && Some(e.marker) == Evidence(found, edges, members)
    ensures Evidence(found, edges, members).None? ==> forall e :: e in edges ==> !Marks(found, e, members)
  {
    if edges != [] {
      EvidenceIsAMarker(found, edges[1..], members);
      assert edges == [edges[0]] + edges[1..];
    }
  }

  /** No two edges mark the conflict under different markers. */
  ghost predicate OneMarker(found: Pool, edges: seq<Edge>, members: set<Key>) {
    forall e, f :: e in edges && f in edges && Marks(found, e, members) && Marks(found, f, members) ==>
      e.marker == f.marker
  }

  ghost predicate EvidenceFixed(found: Pool, edges: seq<Edge>, members: set<Key>) {
    forall permuted :: multiset(permuted) == multiset(edges) ==>
                         Evidence(found, permuted, members) == Evidence(found, edges, members)
  }

  /** The evidence of a marked conflict is the same for every order of the edges iff they mark it under one marker. */
  lemma EvidenceFixedExactlyWhen(found: Pool, edges: seq<Edge>, members: set<Key>)
    ensures EvidenceFixed(found, edges, members) <==> OneMarker(found, edges, members)
  {
    if OneMarker(found, edges, members) {
      forall permuted: seq<Edge> | multiset(permuted) == multiset(edges)
        ensures Evidence(found, permuted, members) == Evidence(found, edges, members)
      {
        OneMarkerFixes(found, edges, permuted, members);
      }
    }
    if EvidenceFixed(found, edges, members) {
      forall e | e in edges && Marks(found, e, members) ensures Evidence(found, edges, members) == Some(e.marker) {
        var permuted := MovedToFront(edges, e);
        assert Evidence(found, permuted, members) == Some(e.marker);
      }
    }
  }

  lemma OneMarkerFixes(found: Pool, a: seq<Edge>, b: seq<Edge>, members: set<Key>)
    requires OneMarker(found, a, members) && multiset(a) == multiset(b)
    ensures Evidence(found, a, members) == Evidence(found, b, members)
  {
    EvidenceIsAMarker(found, a, members);
    EvidenceIsAMarker(found, b, members);
    assert forall e :: e in a <==> e in multiset(a);
    assert forall e :: e in b <==> e in multiset(b);
  }

  lemma MovedToFront(edges: seq<Edge>, e: Edge) returns (permuted: seq<Edge>)
    requires e in edges
    ensures multiset(permuted) == multiset(edges) && permuted != [] && permuted[0] == e
  {
    var i :| 0 <= i < |edges| && edges[i] == e;
    permuted := [e] + edges[..i] + edges[i + 1..];
    assert edges == edges[..i] + [e] + edges[i + 1..];
  }

  /**
   * Which conflicts are found, and how the items are judged, depends on which edges there are and not on their order.
   */
  lemma EdgeOrderCannotMatter(found: Pool, a: seq<Edge>, b: seq<Edge>, requested: Premises, filed: set<Conflict>)
    requires forall e :: e in a <==> e in b
    ensures Conflicts(found, a) == Conflicts(found, b)
    ensures Evaluated(found, a, requested, filed) == Evaluated(found, b, requested, filed)
  {
    SameConflicts(found, a, b);
    var p, q := Evaluated(found, a, requested, filed), Evaluated(found, b, requested, filed);
    SameItems(p, q) by {
      forall k | k in found ensures p[k] == q[k] {
        SameEvaluated(found, a, b, requested, filed, k);
      }
    }
  }

  lemma SameItems(a: Pool, b: Pool)
    requires a.Keys == b.Keys && forall k :: k in a ==> a[k] == b[k]
    ensures a == b
  {
  }

  lemma SameEvaluated(found: Pool, a: seq<Edge>, b: seq<Edge>, requested: Premises, filed: set<Conflict>, k: Key)
    requires k in found
    requires forall p, n :: Superseded(found, a, p, n) <==> Superseded(found, b, p, n)
    ensures Evaluated(found, a, requested, filed)[k] == Evaluated(found, b, requested, filed)[k]
  {
    assert Predecessor(found, a, k) <==> Predecessor(found, b, k);
    EvaluatedAt(found, a, requested, filed, k);
    EvaluatedAt(found, b, requested, filed, k);
  }

  lemma SameConflicts(found: Pool, a: seq<Edge>, b: seq<Edge>)
    requires forall e :: e in a <==> e in b
    ensures forall p, n :: Superseded(found, a, p, n) <==> Superseded(found, b, p, n)
    ensures Conflicts(found, a) == Conflicts(found, b)
  {
    assert MarkedSets(found, a) == MarkedSets(found, b);
    assert ContradictorySets(found, a) == ContradictorySets(found, b);
  }
}
