/** The two services that change knowledge rows, each call one transaction. */
module KnowledgeService {
  import opened KnowledgeModel
  import opened Wrappers

  class KnowledgeBase {
    const approvals: Approvals
    var items: map<Key, Item>
    var ledger: seq<Event>

    constructor (approvals: Approvals, items: map<Key, Item>, ledger: seq<Event>)
      ensures this.approvals == approvals && Now() == State(items, ledger)
    {
      this.approvals, this.items, this.ledger := approvals, items, ledger;
    }

    function Now(): State
      reads this
    {
      State(items, ledger)
    }

    // ---------------------------------------------------------------- ledger queries

    /** The event already recorded under an idempotency key. */
    method Recorded(idem: string) returns (found: Option<nat>)
      ensures found == FindIdem(ledger, idem)
    {
      var n := |ledger|;
      assert ledger[..n] == ledger;
      while n > 0
        invariant 0 <= n <= |ledger| && FindIdem(ledger, idem) == FindIdem(ledger[..n], idem)
      {
        assert ledger[..n][..n - 1] == ledger[..n - 1];
        if ledger[n - 1].idem == idem {
          return Some(n - 1);
        }
        n := n - 1;
      }
      return None;
    }

    /** ORDER BY id DESC LIMIT 1 over the retire events of one item. */
    method LatestRetire(key: Key) returns (found: Option<nat>)
      ensures found == LastRetire(ledger, key)
    {
      var n := |ledger|;
      assert ledger[..n] == ledger;
      while n > 0
        invariant 0 <= n <= |ledger| && LastRetire(ledger, key) == LastRetire(ledger[..n], key)
      {
        assert ledger[..n][..n - 1] == ledger[..n - 1];
        if Retires(ledger[n - 1], key) {
          return Some(n - 1);
        }
        n := n - 1;
      }
      return None;
    }

    // ---------------------------------------------------------------- the lifecycle actions

    method WriteStatus(key: Key, status: Status)
      requires key in items
      modifies this`items
      ensures items == old(items)[key := old(items)[key].(status := status)]
    {
      items := items[key := items[key].(status := status)];
    }

    method ApplyReinstate(r: Request) returns (refused: Option<Error>)
      requires r.target in items && r.action.Reinstate?
      modifies this`items
      ensures Carried(old(Now()), r, items, refused)
    {
      if items[r.target].status != Retired {
        return Some(BadStatus);
      }
      var last := LatestRetire(r.target);
      if last.None? || Some(ledger[last.value].project) != items[r.target].project || ledger[last.value].next != Retired
         || ledger[last.value].prior !in LIVE_PRIORS
      {
        return Some(CorruptHistory);
      }
      WriteStatus(r.target, ledger[last.value].prior);
      return None;
    }

    method ApplySupersede(r: Request) returns (refused: Option<Error>)
      requires r.target in items && r.action.Supersede? && r.action.successor in items
      modifies this`items
      ensures Carried(old(Now()), r, items, refused)
    {
      var successor := items[r.action.successor];
      if successor.status == Rejected || successor.status == Superseded {
        return Some(BadSuccessor);
      }
      if !MaySupersede(r.target, items[r.target], r.action.successor, successor) {
        return Some(BadStatus);
      }
      items := items[r.target := SupersededRow(items[r.target], r.action.successor, Some(r.now))];
      return None;
    }

    method ApplyRefresh(r: Request) returns (refused: Option<Error>)
      requires r.target in items && r.action.Refresh?
      modifies this`items
      ensures Carried(old(Now()), r, items, refused)
    {
      var row := items[r.target];
      if row.status !in LIVE_PRIORS {
        return Some(BadStatus);
      }
      if row.kind in EVIDENCE_REQUIRED && row.evidence < 1 {
        return Some(NeedsEvidence);
      }
      items := items[r.target := row.(verifiedAt := Some(r.now), reviewAfter := Some(r.action.review))];
      return None;
    }

    method ApplyAction(r: Request) returns (refused: Option<Error>)
      requires r.target in items && (r.action.Supersede? ==> r.action.successor in items)
      modifies this`items
      ensures Carried(old(Now()), r, items, refused)
    {
      match r.action {
        case Retire =>
          if items[r.target].status !in LIVE_PRIORS {
            return Some(BadStatus);
          }
          WriteStatus(r.target, Retired);
          return None;
        case Reinstate => refused := ApplyReinstate(r);
        case Challenge =>
          if items[r.target].status !in CHALLENGE_PRIORS {
            return Some(BadStatus);
          }
          WriteStatus(r.target, Challenged);
          return None;
        case Supersede(_) => refused := ApplySupersede(r);
        case Refresh(_) => refused := ApplyRefresh(r);
      }
    }

    /** ExperienceLifecycleService._run */
    method Run(r: Request) returns (outcome: Outcome)
      modifies this
      ensures outcome == Decide(old(Now()), approvals, r)
      ensures Now() == AfterRequest(old(Now()), approvals, r)
    {
      var invalid := InputError(r);
      if invalid.Some? {
        return Failed(invalid.value);
      }
      var denied := AccessError(items, approvals, r);
      if denied.Some? {
        return Failed(denied.value);
      }
      var recorded := Recorded(IdemText(r.action, r.target, r.approval));
      if recorded.Some? {
        var e := ledger[recorded.value];
        if e.project != r.project.value || e.digest != DigestOf(r.action, r.reason) {
          return Failed(IdemReused);
        }
        return Replayed(e);
      }
      var prior := items[r.target].status;
      var refused := ApplyAction(r);
      if refused.Some? {
        return Failed(refused.value);
      }
      var event := Event(IdemText(r.action, r.target, r.approval), r.project.value, r.action, r.target, prior,
                         items[r.target].status, r.approval, DigestOf(r.action, r.reason));
      ledger := ledger + [event];
      return Applied(event);
    }

    // ---------------------------------------------------------------- the knowledge service

    /** KnowledgeService.update */
    method Update(e: Edit) returns (failed: Option<Error>)
      modifies this`items
      ensures failed == EditError(old(items), e)
      ensures Now() == After(old(Now()), approvals, Step.Update(e))
    {
      if e.status.Some? && e.status.value in {Retired, Revoked, Superseded} {
        return Some(BadInput);
      }
      if e.key !in items {
        return Some(UnknownKey(e.key));
      }
      var row := items[e.key];
      if row.status in NON_USE {
        return Some(BadStatus);
      }
      var target := if e.status.Some? then e.status.value else row.status;
      if target != row.status && target !in Transitions(row.status) {
        return Some(BadStatus);
      }
      if target in {Validated, Canonical} && row.kind in EVIDENCE_REQUIRED && row.evidence == 0 {
        return Some(NeedsEvidence);
      }
      if NeedsUserApproval(row.kind, target) {
        if e.approval == Some(false) {
          return Some(NotApproved);
        }
        if e.approval.None? && !row.approved {
          return Some(NeedsApproval);
        }
      }
      items := items[e.key := Edited(row, e)];
      return None;
    }

    /** KnowledgeService.supersede */
    method Supersede(key: Key, replacement: Key) returns (done: bool)
      modifies this`items
      ensures Now() == After(old(Now()), approvals, LegacySupersede(key, replacement))
      ensures !done ==> Now() == old(Now())
      ensures done ==> key in items && items[key].status == Superseded && items[key].supersededBy == Some(replacement)
    {
      if key !in items || replacement !in items {
        return false;
      }
      if !MaySupersede(key, items[key], replacement, items[replacement]) {
        return false;
      }
      items := items[key := SupersededRow(items[key], replacement, None)];
      return true;
    }
  }

  /** The rows after an action: only the target's may have changed, and as Apply says. */
  predicate Carried(before: State, r: Request, items: map<Key, Item>, refused: Option<Error>)
    requires r.target in before.items && (r.action.Supersede? ==> r.action.successor in before.items)
  {
    match Apply(before, r)
    case Row(row) => refused.None? && items == before.items[r.target := row]
    case Refuse(error) => refused == Some(error) && items == before.items
  }
}
