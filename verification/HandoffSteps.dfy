/** What each step of an execution records and changes, and that no execution is ever stuck. */
module HandoffSteps {
  import opened Promotion
  import opened WriteScope
  import opened HandoffRuns

  /** No start and no end of the handoff is in the log. */
  predicate Unclaimed(events: seq<Event>, key: Key) {
    forall i :: 0 <= i < |events| ==>
      events[i] != Event.Started(key) && !(events[i].Executed? && events[i].key == key)
      && events[i] != FailedEvent(key)
  }

  lemma UnclaimedIs(events: seq<Event>, key: Key)
    ensures ClaimedBefore(events, key) <==> !Unclaimed(events, key)
  {
    forall i | 0 <= i < |events|
      ensures HandoffRuns.Claims(events[i], key) <==>
                events[i] == Event.Started(key) || (events[i].Executed? && events[i].key == key)
                || events[i] == FailedEvent(key)
    {
    }
  }

  /** What a step adds to the log. */
  function Recorded(s: State, step: Step): seq<Event>
    requires step.Claim? || step.RecordSuccess? || step.CleanUp? || step.Fail? ==> step.id in s.executions
    requires step.RecordSuccess? ==> s.executions[step.id].phase.InPrimary?
  {
    match step
    case Prepare(key, scope) => [Prepared(key, scope, s.head)]
    case Claim(id) =>
      if Unclaimed(s.events, s.executions[id].key) then [Event.Started(s.executions[id].key)] else []
    case RecordSuccess(id) => [Executed(s.executions[id].key, s.executions[id].phase.changed)]
    case CleanUp(id, removed) => if removed then [] else [CleanupFailed(s.executions[id].key)]
    case Fail(id, _) => [FailedEvent(s.executions[id].key)]
    case _ => []
  }

  /** The phase an execution is in after a step of its own. */
  function PhaseAfter(s: State, step: Step): Phase
    requires step.Claim? || step.PromoteStep? || step.RecordSuccess? ==> step.id in s.executions
    requires step.PromoteStep? ==> s.executions[step.id].phase.Verified?
    requires step.RecordSuccess? ==> s.executions[step.id].phase.InPrimary?
  {
    match step
    case Begin(_, _) => Located
    case Claim(id) => if Unclaimed(s.events, s.executions[id].key) then Claimed else Over
    case CreateWorktree(_) => Working
    case Verify(_, changed, _) => Phase.Verified(changed)
    case PromoteStep(id, _) => InPrimary(s.executions[id].phase.changed)
    case RecordSuccess(id) => Phase.Recorded(s.executions[id].phase.changed)
    case _ => Over
  }

  predicate OfExecution(step: Step) {
    !step.Prepare? && !step.UserEdits? && !step.UserMovesHead?
  }

  /** What a step adds to the log, and what becomes of HEAD, of the primary workspace and of the worktrees. */
  lemma StepMeans(s: State, step: Step, platform: Platform)
    requires Enabled(s, step, platform)
    ensures var t := After(s, step, platform);
            && t.events == s.events + Recorded(s, step)
            && t.head == (if step.UserMovesHead? then step.head else s.head)
            && t.primary == (if step.PromoteStep? || step.Fail? || step.Die? || step.UserEdits? || step.UserMovesHead?
                             then step.after else s.primary)
            && t.worktrees == (if step.CreateWorktree? then s.worktrees + {step.id}
                               else if step.CleanUp? && step.removed then s.worktrees - {step.id} else s.worktrees)
            && t.forceRemoved == (if step.CleanUp? && step.removed then s.forceRemoved + {step.id}
                                  else s.forceRemoved)
  {
    if step.Claim? {
      UnclaimedIs(s.events, s.executions[step.id].key);
    }
  }

  /** A step moves its own execution alone, which keeps its handoff, or begins with one that was prepared. */
  lemma ExecutionMeans(s: State, step: Step, platform: Platform, id: Id)
    requires Enabled(s, step, platform)
    ensures var t := After(s, step, platform);
            if !OfExecution(step) || id != step.id then
              (id in t.executions <==> id in s.executions) &&
              (id in s.executions ==> t.executions[id] == s.executions[id])
            else
              && id in t.executions && t.executions[id].phase == PhaseAfter(s, step)
              && (id in s.executions ==>
                    var x, y := s.executions[id], t.executions[id];
                    y.key == x.key && y.scope == x.scope && y.head == x.head)
              && (step.Begin? ==>
                    var y := t.executions[id];
                    y.key == step.key && Prepared(y.key, y.scope, y.head) in s.events)
  {
    if step.Claim? {
      UnclaimedIs(s.events, s.executions[step.id].key);
    }
  }

  /** Every execution that is not over can fail with the primary workspace as it is, or go on; and it can always die. */
  lemma NothingIsStuck(s: State, platform: Platform, id: Id)
    requires id in s.executions && !s.executions[id].phase.Over?
    ensures Enabled(s, Die(id, s.primary), platform)
    ensures match s.executions[id].phase
            case Located => Enabled(s, Step.Claim(id), platform)
            case Claimed => Enabled(s, CreateWorktree(id), platform) && Enabled(s, Fail(id, s.primary), platform)
            case Working => Enabled(s, Fail(id, s.primary), platform)
            case Verified(_) => forall after :: Enabled(s, Fail(id, after), platform)
            case InPrimary(_) => Enabled(s, RecordSuccess(id), platform)
            case Recorded(_) => Enabled(s, CleanUp(id, true), platform) && Enabled(s, CleanUp(id, false), platform)
            case Over => false
  {
  }

  /** Work within the scope can be verified, and promoted as long as HEAD stays and the primary workspace is clean. */
  lemma CanBePromoted(s: State, platform: Platform, id: Id, changed: set<string>, after: Files)
    requires id in s.executions && s.executions[id].phase.Working?
    requires WithinScope(s.executions[id].scope, changed, {}, platform)
    requires s.head == s.executions[id].head && Changed(s.head, s.primary) == {} && Changed(s.head, after) == changed
    ensures Enabled(s, Verify(id, changed, {}), platform)
    ensures Enabled(After(s, Verify(id, changed, {}), platform), PromoteStep(id, after), platform)
  {
  }

  /** A key that no handoff has can be given to one, and what was prepared can be begun under any free number. */
  lemma CanBegin(s: State, platform: Platform, id: Id, key: Key, scope: Scope)
    requires id !in s.executions
    requires forall i :: 0 <= i < |s.events| && s.events[i].Prepared? ==> s.events[i].key != key
    ensures Enabled(s, Prepare(key, scope), platform)
    ensures Enabled(After(s, Prepare(key, scope), platform), Begin(id, key), platform)
  {
    var t := After(s, Prepare(key, scope), platform);
    assert t.events[|t.events| - 1] == Prepared(key, scope, s.head) && t.events[|t.events| - 1] in t.events;
  }
}
