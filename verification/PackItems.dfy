/** What evaluation makes of each candidate and which conflicts it finds, told by fields, premises and relations. */
module PackItems {
  import opened PackModel
  import opened PackEvaluate
  import opened Wrappers

  // ---------------------------------------------------------------- premises and relations in plain terms

  /** For some premise of both, the requested value is not one that the item allows. */
  predicate Disagrees(i: Item, requested: Premises) {
    exists p :: p in i.premises && p in requested && !(requested[p] in i.premises[p])
  }

  predicate SharesNone(i: Item, requested: Premises) { i.premises.Keys !! requested.Keys }

  /** The relation leads from one candidate to another, both given as kind and key. */
  predicate Links(found: Pool, e: Edge, a: Key, b: Key) {
    && a in found && found[a].ref == Some(e.source.kind + ":" + e.source.key)
    && b in found && found[b].ref == Some(e.target.kind + ":" + e.target.key)
    && found[a].ref != found[b].ref
  }

  predicate Replaces(found: Pool, edges: seq<Edge>, next: Key, previous: Key) {
    exists e :: && e in edges
                && ((e.relation == "supersedes" && Links(found, e, next, previous)) ||
                    (e.relation == "superseded_by" && Links(found, e, previous, next)))
  }

  /** Something replaces it and is not replaced by it. */
  predicate Replaced(found: Pool, edges: seq<Edge>, k: Key) {
    exists n :: n in found && Replaces(found, edges, n, k) && !Replaces(found, edges, k, n)
  }

  predicate TakesSide(filed: set<Conflict>, k: Key) { exists c :: c in filed && k in c.members }

  predicate Instructs(i: Item) { i.role.Instruction? || i.role.Candidate? }

  lemma LinksAre(found: Pool, e: Edge, a: Key, b: Key)
    ensures Relates(found, e, a, b) <==> Links(found, e, a, b)
  {
  }

  lemma ReplacesIs(found: Pool, edges: seq<Edge>, next: Key, previous: Key)
    ensures Superseded(found, edges, previous, next) <==> Replaces(found, edges, next, previous)
  {
    forall e ensures Says(found, e, previous, next) <==>
                     ((e.relation == "supersedes" && Links(found, e, next, previous)) ||
                      (e.relation == "superseded_by" && Links(found, e, previous, next)))
    {
      LinksAre(found, e, next, previous);
      LinksAre(found, e, previous, next);
    }
  }

  lemma ReplacedIs(found: Pool, edges: seq<Edge>, k: Key)
    ensures Predecessor(found, edges, k) <==> Replaced(found, edges, k)
  {
    forall n ensures Superseded(found, edges, k, n) <==> Replaces(found, edges, n, k) {
      ReplacesIs(found, edges, n, k);
    }
    forall n ensures Superseded(found, edges, n, k) <==> Replaces(found, edges, k, n) {
      ReplacesIs(found, edges, k, n);
    }
  }

  // ---------------------------------------------------------------- items

  /** The role after evaluation: the last of the three reasons to lose an instructing role decides. */
  function RoleLeft(i: Item, disagrees: bool, replaced: bool, conflicting: bool): Role {
    if !Instructs(i) then i.role
    else if disagrees then WarningExample
    else if replaced then EvidenceRef
    else if conflicting then ConflictRole
    else i.role
  }

  function FlagsAdded(disagrees: bool, unverified: bool, replaced: bool, conflicting: bool): set<string> {
    (if disagrees then {"premise_mismatch"} else {}) + (if unverified then {"premise_unverified"} else {}) +
    (if replaced then {"historical"} else {}) + (if conflicting then {"conflict"} else {})
  }

  /**
   * What becomes of a candidate, field by field. It leaves its section exactly if it takes part in a conflict or loses
   * an instructing role to the premises, and it loses its authority exactly with its instructing role.
   */
  ghost predicate Became(found: Pool, edges: seq<Edge>, requested: Premises, filed: set<Conflict>, k: Key, j: Item) {
    && k in found
    && var i := found[k];
       var disagrees, unverified := Disagrees(i, requested), SharesNone(i, requested);
       var replaced, conflicting := Replaced(found, edges, k), TakesSide(filed, k);
       && j.section == (if conflicting || (disagrees && Instructs(i)) then 4 else i.section)
       && j.role == RoleLeft(i, disagrees, replaced, conflicting)
       && (j.authoritative <==> i.authoritative && !(Instructs(i) && (disagrees || replaced || conflicting)))
       && j.flags == i.flags + FlagsAdded(disagrees, unverified, replaced, conflicting)
       && j == i.(section := j.section, role := j.role, authoritative := j.authoritative, flags := j.flags)
  }

  lemma ItemMeans(found: Pool, edges: seq<Edge>, requested: Premises, filed: set<Conflict>, k: Key)
    requires k in found
    ensures k in Evaluated(found, edges, requested, filed)
    ensures Became(found, edges, requested, filed, k, Evaluated(found, edges, requested, filed)[k])
  {
    var i := found[k];
    EvaluatedAt(found, edges, requested, filed, k);
    ReplacedIs(found, edges, k);
    assert k in Members(filed) <==> TakesSide(filed, k);
    RoleIs(i, requested, Replaced(found, edges, k), TakesSide(filed, k));
    FlagsAre(i, requested, Replaced(found, edges, k), TakesSide(filed, k));
    RestStays(i, requested, Replaced(found, edges, k), TakesSide(filed, k));
  }

  lemma InstructsIs(i: Item)
    ensures i.role in DEMOTABLE <==> Instructs(i)
  {
    assert i.role in DEMOTABLE <==> i.role == Instruction || i.role == Candidate;
  }

  lemma ComparedIs(i: Item, requested: Premises)
    ensures AfterPremises(i, requested) ==
              if Disagrees(i, requested) then
                i.(section := if Instructs(i) then 4 else i.section,
                   role := if Instructs(i) then WarningExample else i.role,
                   authoritative := i.authoritative && !Instructs(i), flags := i.flags + {"premise_mismatch"})
              else if SharesNone(i, requested) then i.(flags := i.flags + {"premise_unverified"})
              else i
  {
    InstructsIs(i);
    assert Mismatch(i, requested) <==> Disagrees(i, requested);
    assert Comparable(i, requested) <==> !SharesNone(i, requested);
  }

  lemma RelatedIs(i: Item)
    ensures AsPredecessor(i) ==
              i.(role := if Instructs(i) then EvidenceRef else i.role,
                 authoritative := i.authoritative && !Instructs(i), flags := i.flags + {"historical"})
  {
    InstructsIs(i);
  }

  lemma ConflictingIs(i: Item)
    ensures InConflict(i) ==
              i.(section := 4, role := if Instructs(i) then ConflictRole else i.role,
                 authoritative := i.authoritative && !Instructs(i), flags := i.flags + {"conflict"})
  {
    InstructsIs(i);
  }

  lemma RoleIs(i: Item, requested: Premises, replaced: bool, conflicting: bool)
    ensures var j := Judged(i, requested, replaced, conflicting);
            var disagrees := Disagrees(i, requested);
            && j.section == (if conflicting || (disagrees && Instructs(i)) then 4 else i.section)
            && j.role == RoleLeft(i, disagrees, replaced, conflicting)
            && (j.authoritative <==>
                i.authoritative && !(Instructs(i) && (disagrees || replaced || conflicting)))
  {
    var compared := AfterPremises(i, requested);
    ComparedIs(i, requested);
    StandingIs(i, compared, Disagrees(i, requested), replaced, conflicting);
  }

  /** The standing of a compared item after the other two stages. */
  lemma StandingIs(i: Item, compared: Item, disagrees: bool, replaced: bool, conflicting: bool)
    requires compared.section == (if disagrees && Instructs(i) then 4 else i.section)
    requires compared.role == (if disagrees && Instructs(i) then WarningExample else i.role)
    requires compared.authoritative <==> i.authoritative && !(disagrees && Instructs(i))
    ensures var related := if replaced then AsPredecessor(compared) else compared;
            var j := if conflicting then InConflict(related) else related;
            && j.section == (if conflicting || (disagrees && Instructs(i)) then 4 else i.section)
            && j.role == RoleLeft(i, disagrees, replaced, conflicting)
            && (j.authoritative <==>
                i.authoritative && !(Instructs(i) && (disagrees || replaced || conflicting)))
  {
    RelatedIs(compared);
    ConflictingIs(if replaced then AsPredecessor(compared) else compared);
  }

  lemma FlagsAre(i: Item, requested: Premises, replaced: bool, conflicting: bool)
    ensures Judged(i, requested, replaced, conflicting).flags ==
              i.flags + FlagsAdded(Disagrees(i, requested), SharesNone(i, requested), replaced, conflicting)
  {
    var compared := AfterPremises(i, requested);
    ComparedIs(i, requested);
    MoreFlags(compared, i.flags, FlagsAdded(Disagrees(i, requested), SharesNone(i, requested), false, false), replaced,
              conflicting);
  }

  lemma MoreFlags(compared: Item, flags: set<string>, added: set<string>, replaced: bool, conflicting: bool)
    requires compared.flags == flags + added
    ensures var related := if replaced then AsPredecessor(compared) else compared;
            (if conflicting then InConflict(related) else related).flags ==
              flags + (added + (if replaced then {"historical"} else {}) + (if conflicting then {"conflict"} else {}))
  {
    var related := if replaced then AsPredecessor(compared) else compared;
    assert related.flags == flags + (added + if replaced then {"historical"} else {});
  }

  /** j differs from i at most in section, role, authority and flags. */
  predicate SameRest(i: Item, j: Item) {
    j == i.(section := j.section, role := j.role, authoritative := j.authoritative, flags := j.flags)
  }

  lemma SameRestTransitive(i: Item, j: Item, l: Item)
    requires SameRest(i, j) && SameRest(j, l)
    ensures SameRest(i, l)
  {
  }

  lemma RestStays(i: Item, requested: Premises, replaced: bool, conflicting: bool)
    ensures SameRest(i, Judged(i, requested, replaced, conflicting))
  {
    var compared := AfterPremises(i, requested);
    var related := if replaced then AsPredecessor(compared) else compared;
    ComparedIs(i, requested);
    assert SameRest(i, compared);
    RelatedIs(compared);
    assert SameRest(compared, related);
    ConflictingIs(related);
    assert SameRest(related, InConflict(related));
    SameRestTransitive(i, compared, related);
    SameRestTransitive(i, related, InConflict(related));
  }

  /** Whose premises the request contradicts is no instruction any more, wherever it came from. */
  lemma ContradictedPremises(found: Pool, edges: seq<Edge>, requested: Premises, filed: set<Conflict>, k: Key,
                             p: string)
    requires k in found && p in found[k].premises && p in requested && requested[p] !in found[k].premises[p]
    ensures k in Evaluated(found, edges, requested, filed)
    ensures var j := Evaluated(found, edges, requested, filed)[k];
            && !j.role.Instruction? && !j.role.Candidate? && "premise_mismatch" in j.flags
            && (found[k].role.Instruction? || found[k].role.Candidate? ==>
                  j.section == 4 && j.role.WarningExample? && !j.authoritative)
  {
    ItemMeans(found, edges, requested, filed, k);
  }

  /** Whose premises allow all that the request says stays as it is, if nothing replaces it and no conflict names it. */
  lemma AllowedPremises(found: Pool, edges: seq<Edge>, requested: Premises, filed: set<Conflict>, k: Key, p: string)
    requires k in found && p in found[k].premises && p in requested
    requires forall q :: q in found[k].premises && q in requested ==> requested[q] in found[k].premises[q]
    requires !Replaced(found, edges, k) && forall c :: c in filed ==> k !in c.members
    ensures k in Evaluated(found, edges, requested, filed)
    ensures Evaluated(found, edges, requested, filed)[k] == found[k]
  {
    ItemMeans(found, edges, requested, filed, k);
  }

  /** Whose premises say nothing of what the request says gains a flag, and nothing else. */
  lemma UnrelatedPremises(found: Pool, edges: seq<Edge>, requested: Premises, filed: set<Conflict>, k: Key)
    requires k in found && forall q :: q in found[k].premises ==> q !in requested
    requires !Replaced(found, edges, k) && forall c :: c in filed ==> k !in c.members
    ensures k in Evaluated(found, edges, requested, filed)
    ensures Evaluated(found, edges, requested, filed)[k] ==
              found[k].(flags := found[k].flags + {"premise_unverified"})
  {
    ItemMeans(found, edges, requested, filed, k);
  }

  // ---------------------------------------------------------------- conflicts

  /** Two candidates joined by a related_to relation that consolidation has marked. */
  ghost predicate MarkedPair(found: Pool, edges: seq<Edge>, members: set<Key>) {
    exists e, a, b :: && e in edges && e.relation == "related_to" && e.marked && Links(found, e, a, b)
                      && members == {a, b}
  }

  ghost predicate EachReplacesTheOther(found: Pool, edges: seq<Edge>, members: set<Key>) {
    exists a, b :: Replaces(found, edges, a, b) && Replaces(found, edges, b, a) && members == {a, b}
  }

  /** All candidates with a polarity on one subject, and their polarities are positive and negative. */
  ghost predicate TwoOpinions(found: Pool, members: set<Key>) {
    exists subject :: OpinionsOn(found, subject, members)
  }

  ghost predicate OpinionsOn(found: Pool, subject: string, members: set<Key>) {
    && (forall k :: k in members <==> k in found && found[k].subject == Some(subject) && found[k].polarity.Some?)
    && (set k | k in members && k in found :: found[k].polarity) == {Some("positive"), Some("negative")}
  }

  /** The conflicts that evaluation finds are these and no others. */
  lemma FoundConflictsAre(found: Pool, edges: seq<Edge>, c: Conflict)
    ensures c in Conflicts(found, edges) <==>
              || (c.reason == "related_to_conflict" && MarkedPair(found, edges, c.members))
              || (c.reason == "contradictory_supersession" && EachReplacesTheOther(found, edges, c.members))
              || (c.reason == "challenged" && exists k :: k in found && found[k].challenged && c.members == {k})
              || (c.reason == "opposite_polarity" && TwoOpinions(found, c.members))
  {
    MarkedPairsAre(found, edges, c);
    ContradictionsAre(found, edges, c);
    OpinionsAre(found, c);
  }

  lemma MarkedPairsAre(found: Pool, edges: seq<Edge>, c: Conflict)
    ensures c in MarkedSets(found, edges) <==>
              c.reason == "related_to_conflict" && MarkedPair(found, edges, c.members)
  {
    forall e, a, b ensures Relates(found, e, a, b) <==> Links(found, e, a, b) {
      LinksAre(found, e, a, b);
    }
  }

  lemma ContradictionsAre(found: Pool, edges: seq<Edge>, c: Conflict)
    ensures c in ContradictorySets(found, edges) <==>
              c.reason == "contradictory_supersession" && EachReplacesTheOther(found, edges, c.members)
  {
    forall a, b ensures Superseded(found, edges, a, b) <==> Replaces(found, edges, b, a) {
      ReplacesIs(found, edges, b, a);
    }
  }

  lemma OpinionsAre(found: Pool, c: Conflict)
    ensures c in OpposedSets(found) <==> c.reason == "opposite_polarity" && TwoOpinions(found, c.members)
  {
    if c in OpposedSets(found) {
      var s :| s in Subjects(found) && Opposed(found, SubjectGroup(found, s)) &&
        c == Conflict("opposite_polarity", SubjectGroup(found, s));
      assert OpinionsOn(found, s, c.members);
    }
    if c.reason == "opposite_polarity" && TwoOpinions(found, c.members) {
      var s :| OpinionsOn(found, s, c.members);
      OpinionsOppose(found, s, c.members);
    }
  }

  lemma OpinionsOppose(found: Pool, s: string, members: set<Key>)
    requires OpinionsOn(found, s, members)
    ensures members == SubjectGroup(found, s) && s in Subjects(found) && Opposed(found, members)
  {
    var polarities := set k | k in members && k in found :: found[k].polarity;
    assert Some("positive") in polarities && Some("negative") in polarities;
    forall k | k in members ensures found[k].polarity in {Some("positive"), Some("negative")} {
      assert found[k].polarity in polarities;
    }
  }
}
