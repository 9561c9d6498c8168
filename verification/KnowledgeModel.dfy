/**
 * Project knowledge and its append-only lifecycle ledger: what each action of the lifecycle service, and each write of
 * the older knowledge service, does to the rows.
 */
module KnowledgeModel {
  import opened Wrappers

  type Key = string

  datatype Status = Proposed | Observed | Validated | Canonical | Challenged | Superseded | Rejected | Retired | Revoked

  datatype Item = Item(
    project: Option<int>,
    kind: string,
    status: Status,
    supersededBy: Option<Key>,
    evidence: nat,
    approved: bool,
    validTo: Option<int>,
    verifiedAt: Option<int>,
    reviewAfter: Option<int>)

  datatype Action = Retire | Reinstate | Challenge | Supersede(successor: Key) | Refresh(review: int)

  /** request_digest hashes exactly the reason, the successor and the review date. */
  datatype Digest = Digest(reason: string, successor: Option<Key>, review: Option<int>)

  datatype Event = Event(idem: string, project: int, action: Action, target: Key, prior: Status, next: Status,
                         cause: string,
                         digest: Digest)

  datatype Approval = Approval(project: Option<int>, kind: string, subject: string)
  type Approvals = map<string, Approval>

  datatype State = State(items: map<Key, Item>, ledger: seq<Event>)

  const EVIDENCE_REQUIRED := {"observation", "finding", "hypothesis", "fact", "lesson"}
  const APPROVAL_REQUIRED := {"decision", "rule", "process", "requirement", "definition"}
  const NON_USE := {Retired, Revoked}
  const CHALLENGE_PRIORS := {Proposed, Observed, Validated, Canonical}
  const LIVE_PRIORS := CHALLENGE_PRIORS + {Challenged}
  const POLICY_VERSION := "176.e4.v1"
  const APPROVAL_TYPE := "e4_lifecycle"
  const MAX_KEY := 300
  const MAX_REASON := 500

  /** _TRANSITIONS */
  function Transitions(s: Status): set<Status> {
    match s
    case Proposed => {Observed, Validated, Canonical, Rejected, Challenged}
    case Observed => {Validated, Challenged, Rejected}
    case Validated => {Canonical, Challenged, Rejected}
    case Canonical => {Challenged}
    case Challenged => {Validated, Canonical, Rejected}
    case _ => {}
  }

  /** _RANK.get(status, 0) */
  function Rank(s: Status): nat {
    match s
    case Observed => 1
    case Challenged => 1
    case Validated => 2
    case Canonical => 3
    case _ => 0
  }

  // ---------------------------------------------------------------- keys and subjects

  function Name(a: Action): string {
    match a
    case Retire => "retire"
    case Reinstate => "reinstate"
    case Challenge => "challenge"
    case Supersede(_) => "supersede"
    case Refresh(_) => "refresh"
  }

  function SuccessorOf(a: Action): Option<Key> { if a.Supersede? then Some(a.successor) else None }

  function ReviewOf(a: Action): Option<int> { if a.Refresh? then Some(a.review) else None }

  function DigestOf(a: Action, reason: string): Digest { Digest(reason, SuccessorOf(a), ReviewOf(a)) }

  function Subject(a: Action, target: Key): string {
    if a.Supersede? then "supersede:" + target + ":" + a.successor else Name(a) + ":" + target
  }

  function TargetText(a: Action, target: Key): string {
    if a.Supersede? then target + "->" + a.successor else target
  }

  /** The text whose hash is the idempotency key. */
  function IdemText(a: Action, target: Key, cause: string): string {
    POLICY_VERSION + "|" + (Name(a) + "|" + ("knowledge|" + TargetText(a, target) + "|" + cause))
  }

  // ---------------------------------------------------------------- the ledger

  /** The position of the event recorded under an idempotency key. */
  function FindIdem(ledger: seq<Event>, idem: string): (r: Option<nat>)
    ensures r.Some? ==> r.value < |ledger| && ledger[r.value].idem == idem
    ensures r.None? ==> forall i :: 0 <= i < |ledger| ==> ledger[i].idem != idem
  {
    if ledger == [] then None
    else if ledger[|ledger| - 1].idem == idem then Some(|ledger| - 1)
    else FindIdem(ledger[..|ledger| - 1], idem)
  }

  predicate Retires(e: Event, key: Key) { e.action.Retire? && e.target == key }

  /** The position of the latest retire event of an item. */
  function LastRetire(ledger: seq<Event>, key: Key): (r: Option<nat>)
    ensures r.Some? ==> r.value < |ledger| && Retires(ledger[r.value], key)
    ensures r.Some? ==> forall i :: r.value < i < |ledger| ==> !Retires(ledger[i], key)
    ensures r.None? ==> forall i :: 0 <= i < |ledger| ==> !Retires(ledger[i], key)
  {
    if ledger == [] then None
    else if Retires(ledger[|ledger| - 1], key) then Some(|ledger| - 1)
    else LastRetire(ledger[..|ledger| - 1], key)
  }

  // ---------------------------------------------------------------- the lifecycle service

  /**
   * `reason` is already stripped; `secretLike` and `taskOk` are the answers of the redactor and of the lookup of
   * `task_key`.
   */
  datatype Request = Request(action: Action, target: Key, project: Option<int>, approval: string, reason: string,
                             now: int,
                             secretLike: bool, taskOk: bool)

  datatype Error =
    | CompanyScope | WrongProject | BadInput | UnknownTask | UnknownKey(key: Key) | NotApproved | IdemReused | BadStatus
    | CorruptHistory | BadSuccessor | NeedsEvidence | NeedsApproval | AlreadyExists

  datatype Outcome = Applied(event: Event) | Replayed(event: Event) | Failed(error: Error)

  predicate KeyOk(k: string) { 1 <= |k| <= MAX_KEY }

  /** The checks made before the database is touched. */
  function InputError(r: Request): Option<Error> {
    if r.action.Supersede? && !KeyOk(r.action.successor) then Some(BadInput)
    else if r.project.None? then Some(CompanyScope)
    else if r.project.value <= 0 then Some(BadInput)
    else if !KeyOk(r.target) || !KeyOk(r.approval) then Some(BadInput)
    else if r.action.Supersede? && r.action.successor == r.target then Some(BadInput)
    else if r.reason == "" || |r.reason| > MAX_REASON || r.secretLike then Some(BadInput)
    else if r.action.Refresh? && r.action.review <= r.now then Some(BadInput)
    else None
  }

  function RowError(items: map<Key, Item>, key: Key, project: int): Option<Error> {
    if key !in items then Some(UnknownKey(key))
    else if items[key].project.None? then Some(CompanyScope)
    else if items[key].project.value != project then Some(WrongProject)
    else None
  }

  predicate Approved(approvals: Approvals, r: Request) {
    r.approval in approvals && approvals[r.approval] == Approval(r.project, APPROVAL_TYPE, Subject(r.action, r.target))
  }

  /** The checks up to the approval, in order. */
  function AccessError(items: map<Key, Item>, approvals: Approvals, r: Request): Option<Error>
    requires InputError(r).None?
  {
    if !r.taskOk then Some(UnknownTask)
    else if RowError(items, r.target, r.project.value).Some? then RowError(items, r.target, r.project.value)
    else if r.action.Supersede? && RowError(items, r.action.successor, r.project.value).Some? then
      RowError(items, r.action.successor, r.project.value)
    else if !Approved(approvals, r) then Some(NotApproved)
    else None
  }

  /** check_supersession */
  predicate MaySupersede(key: Key, row: Item, replacementKey: Key, replacement: Item) {
    && key != replacementKey && row.kind == replacement.kind && row.project == replacement.project
    && row.status != Superseded && row.status !in NON_USE && replacement.status !in NON_USE
    && Rank(replacement.status) >= Rank(row.status)
  }

  /** write_supersession */
  function SupersededRow(row: Item, replacement: Key, validTo: Option<int>): Item {
    row.(status := Superseded, supersededBy := Some(replacement), validTo :=
         if row.validTo.Some? then row.validTo else validTo)
  }

  datatype Change = Row(item: Item) | Refuse(error: Error)

  /** The _apply_ methods: the new row of the target, or a refusal. */
  function Apply(s: State, r: Request): Change
    requires r.target in s.items && (r.action.Supersede? ==> r.action.successor in s.items)
  {
    var row := s.items[r.target];
    match r.action
    case Retire => if row.status in LIVE_PRIORS then Row(row.(status := Retired)) else Refuse(BadStatus)
    case Reinstate =>
      if row.status != Retired then Refuse(BadStatus)
      else
        var last := LastRetire(s.ledger, r.target);
        if last.None? || Some(s.ledger[last.value].project) != row.project || s.ledger[last.value].next != Retired
           || s.ledger[last.value].prior !in LIVE_PRIORS
        then Refuse(CorruptHistory)
        else Row(row.(status := s.ledger[last.value].prior))
    case Challenge => if row.status in CHALLENGE_PRIORS then Row(row.(status := Challenged)) else Refuse(BadStatus)
    case Supersede(successor) =>
      if s.items[successor].status in {Rejected, Superseded} then Refuse(BadSuccessor)
      else if !MaySupersede(r.target, row, successor, s.items[successor]) then Refuse(BadStatus)
      else Row(SupersededRow(row, successor, Some(r.now)))
    case Refresh(review) =>
      if row.status !in LIVE_PRIORS then Refuse(BadStatus)
      else if row.kind in EVIDENCE_REQUIRED && row.evidence < 1 then Refuse(NeedsEvidence)
      else Row(row.(verifiedAt := Some(r.now), reviewAfter := Some(review)))
  }

  function EventOf(s: State, r: Request, next: Status): Event
    requires r.target in s.items && r.project.Some?
  {
    Event(IdemText(r.action, r.target, r.approval), r.project.value, r.action, r.target, s.items[r.target].status, next,
          r.approval, DigestOf(r.action, r.reason))
  }

  /** How one request of the lifecycle service ends. */
  function Decide(s: State, approvals: Approvals, r: Request): Outcome {
    if InputError(r).Some? then Failed(InputError(r).value)
    else if AccessError(s.items, approvals, r).Some? then Failed(AccessError(s.items, approvals, r).value)
    else
      var recorded := FindIdem(s.ledger, IdemText(r.action, r.target, r.approval));
      if recorded.Some? then
        var e := s.ledger[recorded.value];
        if e.project != r.project.value || e.digest != DigestOf(r.action, r.reason) then Failed(IdemReused)
          else Replayed(e)
      else
        var change := Apply(s, r);
        if change.Refuse? then Failed(change.error) else Applied(EventOf(s, r, change.item.status))
  }

  /** What it leaves behind: one changed row and one more event, or nothing at all. */
  function AfterRequest(s: State, approvals: Approvals, r: Request): State {
    var outcome := Decide(s, approvals, r);
    if outcome.Applied? then State(s.items[r.target := Apply(s, r).item], s.ledger + [outcome.event]) else s
  }

  // ---------------------------------------------------------------- the knowledge service

  /** `approval` is None when no key is given, otherwise what require_approval says about it. */
  datatype Edit = Edit(key: Key, status: Option<Status>, reviewAfter: Option<int>, markVerified: bool,
                       approval: Option<bool>,
                       now: int)

  function EditError(items: map<Key, Item>, e: Edit): Option<Error> {
    if e.status.Some? && e.status.value in NON_USE + {Superseded} then Some(BadInput)
    else if e.key !in items then Some(UnknownKey(e.key))
    else
      var row := items[e.key];
      var target := if e.status.Some? then e.status.value else row.status;
      if row.status in NON_USE then Some(BadStatus)
      else if target != row.status && target !in Transitions(row.status) then Some(BadStatus)
      else if target in {Validated, Canonical} && row.kind in EVIDENCE_REQUIRED && row.evidence == 0
        then Some(NeedsEvidence)
      else if NeedsUserApproval(row.kind, target) && e.approval == Some(false) then Some(NotApproved)
      else if NeedsUserApproval(row.kind, target) && e.approval.None? && !row.approved then Some(NeedsApproval)
      else None
  }

  function Edited(row: Item, e: Edit): Item {
    var target := if e.status.Some? then e.status.value else row.status;
    row.(status := target,
         reviewAfter := if e.reviewAfter.Some? then e.reviewAfter else row.reviewAfter,
         approved := row.approved || (NeedsUserApproval(row.kind, target) && e.approval == Some(true)),
         verifiedAt := if e.markVerified && e.status.Some? && e.status.value in {Validated, Canonical} then Some(e.now)
                       else row.verifiedAt)
  }

  /** KnowledgeService.supersede: the same rules without the lifecycle service's look at the replacement's status. */
  function AfterLegacy(s: State, key: Key, replacement: Key): State {
    if key in s.items && replacement in s.items &&
      MaySupersede(key, s.items[key], replacement, s.items[replacement]) then
      s.(items := s.items[key := SupersededRow(s.items[key], replacement, None)])
    else s
  }

  /** KnowledgeService.propose; `approval` as in Edit. */
  datatype Proposal = Proposal(key: Key, kind: string, project: Option<int>, status: Status, reviewAfter: Option<int>,
                               approval: Option<bool>)

  predicate NeedsUserApproval(kind: string, status: Status) { kind in APPROVAL_REQUIRED && status == Canonical }

  predicate MayPropose(items: map<Key, Item>, p: Proposal) {
    && p.kind in EVIDENCE_REQUIRED + APPROVAL_REQUIRED && p.status !in NON_USE + {Superseded}
    && p.key != "" && p.key !in items
    && !(p.kind in EVIDENCE_REQUIRED && p.status in {Validated, Canonical})
    && p.approval != Some(false)
    && (p.project.None? || NeedsUserApproval(p.kind, p.status) ==> p.approval == Some(true))
  }

  function NewRow(p: Proposal): Item {
    Item(p.project, p.kind, p.status, None, 0,
         p.approval == Some(true) && (p.project.Some? || NeedsUserApproval(p.kind, p.status)), None, None,
         p.reviewAfter)
  }

  // ---------------------------------------------------------------- everything that may happen

  datatype Step =
    | Lifecycle(request: Request)
    | Update(edit: Edit)
    | LegacySupersede(key: Key, replacement: Key)
    | Propose(proposal: Proposal)
    | AttachEvidence(key: Key)

  function After(s: State, approvals: Approvals, step: Step): State {
    match step
    case Lifecycle(r) => AfterRequest(s, approvals, r)
    case Update(e) => if EditError(s.items, e).Some? then s
      else s.(items := s.items[e.key := Edited(s.items[e.key], e)])
    case LegacySupersede(key, replacement) => AfterLegacy(s, key, replacement)
    case Propose(p) => if MayPropose(s.items, p) then s.(items := s.items[p.key := NewRow(p)]) else s
    case AttachEvidence(k) =>
      if k in s.items then s.(items := s.items[k := s.items[k].(evidence := s.items[k].evidence + 1)]) else s
  }

  /** states[i + 1] results from states[i] by steps[i]; transactions make every step atomic. */
  ghost predicate Run(states: seq<State>, steps: seq<Step>, approvals: Approvals) {
    && |states| == |steps| + 1
    && forall i, j :: 0 <= i < |steps| && j == i + 1 ==> states[j] == After(states[i], approvals, steps[i])
  }
}
