/**
 * What each action of the lifecycle service, and each write of the older service, does to rows and ledger, spelled out
 * in the fields of the request and of the rows.
 */
module KnowledgeActions {
  import opened KnowledgeModel
  import opened Wrappers

  // ---------------------------------------------------------------- requests that get as far as their action

  /** The request is well formed: a project, bounded keys, a reason that is no secret, and a task of the project. */
  predicate WellFormed(r: Request) {
    && r.project.Some? && r.project.value > 0
    && 1 <= |r.target| <= 300 && 1 <= |r.approval| <= 300 && 1 <= |r.reason| <= 500 && !r.secretLike && r.taskOk
  }

  /** The project has this item. */
  predicate Ours(s: State, key: Key, r: Request) { key in s.items && s.items[key].project == r.project }

  /** The user has approved exactly this. */
  predicate ApprovedAs(approvals: Approvals, r: Request, subject: string) {
    r.approval in approvals && approvals[r.approval] == Approval(r.project, "e4_lifecycle", subject)
  }

  /** Nothing has been recorded under the text of the request. */
  predicate Unrecorded(s: State, idem: string) { forall i :: 0 <= i < |s.ledger| ==> s.ledger[i].idem != idem }

  /** A request about one item, as far as its action. */
  predicate MayAct(s: State, approvals: Approvals, r: Request, name: string) {
    && WellFormed(r) && Ours(s, r.target, r) && ApprovedAs(approvals, r, name + ":" + r.target)
    && Unrecorded(s, IdemOf(name, r.target, r.approval))
  }

  /** The text that is hashed for the idempotency key. */
  function IdemOf(name: string, target: string, approval: string): string {
    "176.e4.v1|" + (name + ("|knowledge|" + target + "|" + approval))
  }

  lemma IdemTextIs(r: Request, name: string, target: string)
    requires name == Name(r.action) && target == TargetText(r.action, r.target)
    ensures IdemText(r.action, r.target, r.approval) == IdemOf(name, target, r.approval)
  {
    assert "176.e4.v1" + "|" == "176.e4.v1|";
    assert "|knowledge|" == "|" + "knowledge|";
    assert name + "|" + ("knowledge|" + target + "|" + r.approval) ==
           name + (("|" + "knowledge|") + target + "|" + r.approval);
  }

  lemma Subjects(r: Request, name: string)
    requires name == Name(r.action) && !r.action.Supersede?
    ensures Subject(r.action, r.target) == name + ":" + r.target && TargetText(r.action, r.target) == r.target
  {
  }

  /** The request passes all checks before its action and has not been recorded. */
  ghost predicate ReachesAction(s: State, approvals: Approvals, r: Request) {
    && InputError(r).None? && AccessError(s.items, approvals, r).None?
    && FindIdem(s.ledger, IdemText(r.action, r.target, r.approval)).None?
  }

  lemma ReachesActionExactlyWhen(s: State, approvals: Approvals, r: Request, name: string)
    requires name == Name(r.action) && !r.action.Supersede?
    ensures ReachesAction(s, approvals, r) <==>
              MayAct(s, approvals, r, name) && (r.action.Refresh? ==> r.action.review > r.now)
  {
    Subjects(r, name);
    IdemTextIs(r, name, r.target);
  }

  lemma AppliedExactlyWhen(s: State, approvals: Approvals, r: Request)
    ensures Decide(s, approvals, r).Applied? <==> ReachesAction(s, approvals, r) && Apply(s, r).Row?
    ensures !Decide(s, approvals, r).Applied? ==> AfterRequest(s, approvals, r) == s
  {
  }

  /** The row is replaced, and the event of the action follows the others. */
  ghost predicate Leaves(s: State, approvals: Approvals, r: Request, row: Item, event: Event) {
    && Decide(s, approvals, r) == Applied(event)
    && AfterRequest(s, approvals, r) == State(s.items[r.target := row], s.ledger + [event])
  }

  // ---------------------------------------------------------------- the five actions

  /** Retire: from every live status, and nothing but the status changes. */
  lemma RetireMeans(s: State, approvals: Approvals, r: Request)
    requires r.action == Retire
    ensures Decide(s, approvals, r).Applied? <==>
              && MayAct(s, approvals, r, "retire")
              && s.items[r.target].status in {Proposed, Observed, Validated, Canonical, Challenged}
    ensures Decide(s, approvals, r).Applied? ==>
              var row := s.items[r.target];
              Leaves(s, approvals, r,
                     Item(row.project, row.kind, Retired, row.supersededBy, row.evidence, row.approved, row.validTo,
                          row.verifiedAt, row.reviewAfter),
                     Event(IdemOf("retire", r.target, r.approval), r.project.value, Retire, r.target, row.status,
                           Retired,
                           r.approval, Digest(r.reason, None, None)))
  {
    IdemTextIs(r, "retire", r.target);
    ReachesActionExactlyWhen(s, approvals, r, "retire");
    AppliedExactlyWhen(s, approvals, r);
  }

  /** Challenge: from every live status but challenged, to challenged. */
  lemma ChallengeMeans(s: State, approvals: Approvals, r: Request)
    requires r.action == Challenge
    ensures Decide(s, approvals, r).Applied? <==>
              && MayAct(s, approvals, r, "challenge")
              && s.items[r.target].status in {Proposed, Observed, Validated, Canonical}
    ensures Decide(s, approvals, r).Applied? ==>
              var row := s.items[r.target];
              Leaves(s, approvals, r,
                     Item(row.project, row.kind, Challenged, row.supersededBy, row.evidence, row.approved, row.validTo,
                          row.verifiedAt, row.reviewAfter),
                     Event(IdemOf("challenge", r.target, r.approval), r.project.value, Challenge, r.target, row.status,
                           Challenged, r.approval, Digest(r.reason, None, None)))
  {
    IdemTextIs(r, "challenge", r.target);
    ReachesActionExactlyWhen(s, approvals, r, "challenge");
    AppliedExactlyWhen(s, approvals, r);
  }

  /** The latest retire event of the item is at this position. */
  predicate LatestRetireAt(ledger: seq<Event>, key: Key, i: nat) {
    && i < |ledger| && ledger[i].action == Retire && ledger[i].target == key
    && forall j :: i < j < |ledger| && ledger[j].action == Retire ==> ledger[j].target != key
  }

  lemma LatestRetireIs(ledger: seq<Event>, key: Key, i: nat)
    ensures LastRetire(ledger, key) == Some(i) <==> LatestRetireAt(ledger, key, i)
  {
    var last := LastRetire(ledger, key);
    if LatestRetireAt(ledger, key, i) {
      assert Retires(ledger[i], key);
      assert last.Some?;
      SameRetire(ledger, key, i, last.value);
    }
  }

  lemma SameRetire(ledger: seq<Event>, key: Key, i: nat, j: nat)
    requires LatestRetireAt(ledger, key, i) && j < |ledger| && Retires(ledger[j], key)
    requires forall k :: j < k < |ledger| ==> !Retires(ledger[k], key)
    ensures i == j
  {
    assert i >= j;
  }

  /**
   * Reinstate: only what is retired, if the latest retire event is of the same project and remembers a live status;
   * that status is what the item gets.
   */
  lemma ReinstateMeans(s: State, approvals: Approvals, r: Request)
    requires r.action == Reinstate
    ensures Decide(s, approvals, r).Applied? <==>
              && MayAct(s, approvals, r, "reinstate") && s.items[r.target].status == Retired
              && exists i: nat :: LatestRetireAt(s.ledger, r.target, i) && Some(s.ledger[i].project) == r.project
                                  && s.ledger[i].next == Retired
                                  && s.ledger[i].prior in {Proposed, Observed, Validated, Canonical, Challenged}
    ensures forall i: nat :: Decide(s, approvals, r).Applied? && LatestRetireAt(s.ledger, r.target, i) ==>
                               var row, back := s.items[r.target], s.ledger[i].prior;
                               Leaves(s, approvals, r,
                                      Item(row.project, row.kind, back, row.supersededBy, row.evidence, row.approved,
                                           row.validTo, row.verifiedAt, row.reviewAfter),
                                      Event(IdemOf("reinstate", r.target, r.approval), r.project.value, Reinstate,
                                            r.target, Retired, back, r.approval, Digest(r.reason, None, None)))
  {
    IdemTextIs(r, "reinstate", r.target);
    ReachesActionExactlyWhen(s, approvals, r, "reinstate");
    AppliedExactlyWhen(s, approvals, r);
    forall i: nat ensures LastRetire(s.ledger, r.target) == Some(i) <==> LatestRetireAt(s.ledger, r.target, i) {
      LatestRetireIs(s.ledger, r.target, i);
    }
    var last := LastRetire(s.ledger, r.target);
    if last.Some? {
      assert LatestRetireAt(s.ledger, r.target, last.value);
    }
  }

  /** How mature a status is: a replacement may not be less mature than what it replaces. */
  predicate AtLeastAsMature(a: Status, b: Status) {
    match b
    case Canonical => a == Canonical
    case Validated => a in {Validated, Canonical}
    case Observed => a in {Observed, Challenged, Validated, Canonical}
    case Challenged => a in {Observed, Challenged, Validated, Canonical}
    case _ => true
  }

  lemma MaySupersedeExactlyWhen(key: Key, row: Item, other: Key, replacement: Item)
    ensures MaySupersede(key, row, other, replacement) <==>
              && key != other && row.kind == replacement.kind && row.project == replacement.project
              && row.status !in {Superseded, Retired, Revoked} && replacement.status !in {Retired, Revoked}
              && AtLeastAsMature(replacement.status, row.status)
  {
  }

  /**
   * Supersede: by a standing item of the same type and project that is no less mature. The successor is named, and an
   * earlier end of validity stays.
   */
  lemma SupersedeMeans(s: State, approvals: Approvals, r: Request)
    requires r.action.Supersede?
    ensures var key := r.action.successor;
            Decide(s, approvals, r).Applied? <==>
              && WellFormed(r) && 1 <= |key| <= 300 && key != r.target && Ours(s, r.target, r) && Ours(s, key, r)
              && ApprovedAs(approvals, r, "supersede:" + r.target + ":" + key)
              && Unrecorded(s, IdemOf("supersede", r.target + "->" + key, r.approval))
              && s.items[key].kind == s.items[r.target].kind
              && s.items[key].status !in {Rejected, Superseded, Retired, Revoked}
              && s.items[r.target].status !in {Superseded, Retired, Revoked}
              && AtLeastAsMature(s.items[key].status, s.items[r.target].status)
    ensures Decide(s, approvals, r).Applied? ==>
              var row, key := s.items[r.target], r.action.successor;
              Leaves(s, approvals, r,
                     Item(row.project, row.kind, Superseded, Some(key), row.evidence, row.approved,
                          if row.validTo.Some? then row.validTo else Some(r.now), row.verifiedAt, row.reviewAfter),
                     Event(IdemOf("supersede", r.target + "->" + key, r.approval), r.project.value, Supersede(key),
                           r.target, row.status, Superseded, r.approval, Digest(r.reason, Some(key), None)))
  {
    IdemTextIs(r, "supersede", r.target + "->" + r.action.successor);
    AppliedExactlyWhen(s, approvals, r);
    if r.target in s.items && r.action.successor in s.items {
      MaySupersedeExactlyWhen(r.target, s.items[r.target], r.action.successor, s.items[r.action.successor]);
    }
  }

  /**
   * Refresh: a live item, with evidence if its type needs it, to a later date of review. It is verified now, is to be
   * reviewed then, and keeps its status.
   */
  lemma RefreshMeans(s: State, approvals: Approvals, r: Request)
    requires r.action.Refresh?
    ensures Decide(s, approvals, r).Applied? <==>
              && MayAct(s, approvals, r, "refresh") && r.action.review > r.now
              && s.items[r.target].status in {Proposed, Observed, Validated, Canonical, Challenged}
              && (s.items[r.target].kind in {"observation", "finding", "hypothesis", "fact", "lesson"} ==>
                    s.items[r.target].evidence >= 1)
    ensures Decide(s, approvals, r).Applied? ==>
              var row := s.items[r.target];
              Leaves(s, approvals, r,
                     Item(row.project, row.kind, row.status, row.supersededBy, row.evidence, row.approved, row.validTo,
                          Some(r.now), Some(r.action.review)),
                     Event(IdemOf("refresh", r.target, r.approval), r.project.value, Refresh(r.action.review), r.target,
                           row.status, row.status, r.approval, Digest(r.reason, None, Some(r.action.review))))
  {
    IdemTextIs(r, "refresh", r.target);
    ReachesActionExactlyWhen(s, approvals, r, "refresh");
    AppliedExactlyWhen(s, approvals, r);
  }

  // ---------------------------------------------------------------- refusals and replays

  /** Anything wrong with the input itself is bad input, but a missing project is told apart. */
  lemma InputIsRefusedExactlyWhen(r: Request)
    ensures InputError(r) == Some(CompanyScope) <==>
              r.project == None && (r.action.Supersede? ==> 1 <= |r.action.successor| <= 300)
    ensures InputError(r) == None <==>
              && WellFormed(r.(taskOk := true))
              && (r.action.Supersede? ==> 1 <= |r.action.successor| <= 300 && r.action.successor != r.target)
              && (r.action.Refresh? ==> r.action.review > r.now)
    ensures InputError(r) in {None, Some(CompanyScope), Some(BadInput)}
  {
  }

  /** The first item named that is unknown, of no project or of another one; the target comes before the successor. */
  predicate FirstStranger(s: State, r: Request, key: Key) {
    && !Ours(s, key, r)
    && (key == r.target || (r.action.Supersede? && key == r.action.successor && Ours(s, r.target, r)))
  }

  lemma AccessIsRefusedExactlyWhen(s: State, approvals: Approvals, r: Request, name: string)
    requires InputError(r).None? && name == Name(r.action)
    ensures var e := AccessError(s.items, approvals, r);
            var ours := Ours(s, r.target, r) && (r.action.Supersede? ==> Ours(s, r.action.successor, r));
            var subject := if r.action.Supersede? then "supersede:" + r.target + ":" + r.action.successor
                           else name + ":" + r.target;
            && (e == Some(UnknownTask) <==> !r.taskOk)
            && (forall k :: e == Some(UnknownKey(k)) <==> r.taskOk && FirstStranger(s, r, k) && k !in s.items)
            && (e == Some(CompanyScope) <==>
                  r.taskOk && exists k :: FirstStranger(s, r, k) && k in s.items && s.items[k].project == None)
            && (e == Some(WrongProject) <==>
                  r.taskOk && exists k :: FirstStranger(s, r, k) && k in s.items && s.items[k].project != None)
            && (e == Some(NotApproved) <==> r.taskOk && ours && !ApprovedAs(approvals, r, subject))
            && (e == None <==> r.taskOk && ours && ApprovedAs(approvals, r, subject))
  {
    if r.taskOk && !Ours(s, r.target, r) {
      assert FirstStranger(s, r, r.target);
    } else if r.taskOk && r.action.Supersede? && !Ours(s, r.action.successor, r) {
      assert FirstStranger(s, r, r.action.successor);
    }
  }

  /** A request that reaches its action and is not applied is refused for this. */
  lemma ActionIsRefusedExactlyWhen(s: State, approvals: Approvals, r: Request)
    requires ReachesAction(s, approvals, r) && !Decide(s, approvals, r).Applied?
    ensures r.target in s.items && (r.action.Supersede? ==> r.action.successor in s.items)
    ensures Decide(s, approvals, r) ==
              Failed(if r.action == Reinstate && s.items[r.target].status == Retired then CorruptHistory
                     else if r.action.Supersede? && s.items[r.action.successor].status in {Rejected, Superseded}
                     then BadSuccessor
                     else if r.action.Refresh?
                             && s.items[r.target].status in {Proposed, Observed, Validated, Canonical, Challenged}
                     then NeedsEvidence
                     else BadStatus)
  {
  }

  /** What was recorded under the text of the request answers it, if it is the same request. */
  lemma RecordedAnswers(s: State, approvals: Approvals, r: Request, i: nat)
    requires InputError(r).None? && AccessError(s.items, approvals, r).None?
    requires FindIdem(s.ledger, IdemText(r.action, r.target, r.approval)) == Some(i)
    ensures AfterRequest(s, approvals, r) == s
    ensures var same := && Some(s.ledger[i].project) == r.project && s.ledger[i].digest.reason == r.reason
                        && s.ledger[i].digest.successor ==
                           (if r.action.Supersede? then Some(r.action.successor) else None)
                        && s.ledger[i].digest.review == (if r.action.Refresh? then Some(r.action.review) else None);
            Decide(s, approvals, r) == if same then Replayed(s.ledger[i]) else Failed(IdemReused)
  {
  }

  // ---------------------------------------------------------------- the older service

  /** The moves that update allows. */
  predicate MayMove(a: Status, b: Status) {
    match a
    case Proposed => b in {Observed, Validated, Canonical, Rejected, Challenged}
    case Observed => b in {Validated, Challenged, Rejected}
    case Validated => b in {Canonical, Challenged, Rejected}
    case Canonical => b == Challenged
    case Challenged => b in {Validated, Canonical, Rejected}
    case _ => false
  }

  /** The status after an update. */
  function Target(row: Item, e: Edit): Status { if e.status == None then row.status else e.status.value }

  /** Update: a known row in use, along an allowed move, with evidence and approval where they are needed. */
  lemma UpdateMeans(s: State, approvals: Approvals, e: Edit)
    ensures EditError(s.items, e) == None <==>
              && e.status !in {Some(Superseded), Some(Retired), Some(Revoked)} && e.key in s.items
              && var row := s.items[e.key];
                 var target := Target(row, e);
                 var sourced := row.kind in {"observation", "finding", "hypothesis", "fact", "lesson"};
                 var approvable := row.kind in {"decision", "rule", "process", "requirement", "definition"};
                 && row.status !in {Retired, Revoked} && (target == row.status || MayMove(row.status, target))
                 && (sourced && target in {Validated, Canonical} ==> row.evidence > 0)
                 && (approvable && target == Canonical ==>
                       if e.approval == None then row.approved else e.approval.value)
    ensures EditError(s.items, e) != None ==> After(s, approvals, Update(e)) == s
    ensures EditError(s.items, e) == None ==>
              var row := s.items[e.key];
              var canonical := Target(row, e) == Canonical && row.kind in APPROVAL_REQUIRED;
              After(s, approvals, Update(e)) ==
                State(s.items[e.key :=
                              Item(row.project, row.kind, Target(row, e), row.supersededBy, row.evidence,
                                   if canonical && e.approval == Some(true) then true else row.approved, row.validTo,
                                   if e.markVerified && e.status in {Some(Validated), Some(Canonical)} then Some(e.now)
                                   else row.verifiedAt,
                                   if e.reviewAfter == None then row.reviewAfter else e.reviewAfter)], s.ledger)
  {
  }

  /** The first thing wrong with an update. */
  lemma UpdateIsRefusedExactlyWhen(s: State, e: Edit)
    ensures var fail := EditError(s.items, e);
            var reserved := e.status in {Some(Superseded), Some(Retired), Some(Revoked)};
            && (fail == Some(BadInput) <==> reserved)
            && (forall k :: fail == Some(UnknownKey(k)) <==> !reserved && k == e.key && e.key !in s.items)
            && (!reserved && e.key in s.items ==>
                  var row := s.items[e.key];
                  var target := Target(row, e);
                  var barred := row.status in {Retired, Revoked} ||
                    (target != row.status && !MayMove(row.status, target));
                  var bare := target in {Validated, Canonical} && row.kind in EVIDENCE_REQUIRED && row.evidence == 0;
                  var needs := target == Canonical && row.kind in APPROVAL_REQUIRED;
                  && (fail == Some(BadStatus) <==> barred)
                  && (fail == Some(NeedsEvidence) <==> !barred && bare)
                  && (fail == Some(NotApproved) <==> !barred && !bare && needs && e.approval == Some(false))
                  && (fail == Some(NeedsApproval) <==>
                      !barred && !bare && needs && e.approval == None && !row.approved))
  {
  }

  /** The older supersession: the same rules, whatever the replacement's own status, and no end of validity is set. */
  lemma LegacySupersedeMeans(s: State, approvals: Approvals, key: Key, other: Key)
    ensures var t := After(s, approvals, LegacySupersede(key, other));
            var may := && key in s.items && other in s.items && key != other && s.items[key].kind == s.items[other].kind
                       && s.items[key].project == s.items[other].project
                       && s.items[key].status !in {Superseded, Retired, Revoked}
                       && s.items[other].status !in {Retired, Revoked}
                       && AtLeastAsMature(s.items[other].status, s.items[key].status);
            if !may then t == s
            else
              var row := s.items[key];
              t == State(s.items[key := Item(row.project, row.kind, Superseded, Some(other), row.evidence, row.approved,
                                             row.validTo, row.verifiedAt, row.reviewAfter)], s.ledger)
  {
    if key in s.items && other in s.items {
      MaySupersedeExactlyWhen(key, s.items[key], other, s.items[other]);
    }
  }

  /** Propose: a new key of a known type in an open status; evidence and approval as its status and scope need them. */
  lemma ProposeMeans(s: State, approvals: Approvals, p: Proposal)
    ensures var t := After(s, approvals, Propose(p));
            var sourced := p.kind in {"observation", "finding", "hypothesis", "fact", "lesson"};
            var approvable := p.kind in {"decision", "rule", "process", "requirement", "definition"};
            var needs := p.project == None || (approvable && p.status == Canonical);
            var may := && (sourced || approvable) && p.status !in {Retired, Revoked, Superseded}
                       && |p.key| > 0 && p.key !in s.items && !(sourced && p.status in {Validated, Canonical})
                       && p.approval != Some(false) && (needs ==> p.approval == Some(true));
            t == if !may then s
                 else State(s.items[p.key := Item(p.project, p.kind, p.status, None, 0,
                                                  p.approval == Some(true) && (p.project != None || approvable)
                                                  && (p.project != None || p.status == Canonical),
                                                  None, None, p.reviewAfter)], s.ledger)
  {
  }

  /** One more piece of evidence for a known row. */
  lemma EvidenceMeans(s: State, approvals: Approvals, key: Key)
    ensures var t := After(s, approvals, AttachEvidence(key));
            if key !in s.items then t == s
            else
              var row := s.items[key];
              t == State(s.items[key := Item(row.project, row.kind, row.status, row.supersededBy, row.evidence + 1,
                                             row.approved, row.validTo, row.verifiedAt, row.reviewAfter)], s.ledger)
  {
  }
}
