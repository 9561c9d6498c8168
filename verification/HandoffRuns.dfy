/**
 * All interleavings of `execute` on one task: any number of executions, each of which can die at any point, share the
 * task's event log and the primary workspace.
 */
module HandoffRuns {
  import opened WriteScope
  import opened Promotion

  type Key = string
  type Id = nat

  datatype Event =
    | Prepared(key: Key, scope: Scope, head: Files)
    | Started(key: Key)
    | Executed(key: Key, changed: set<string>)
    | FailedEvent(key: Key)
    | CleanupFailed(key: Key)

  /** Where one call of execute stands. */
  datatype Phase =
    | Located
    | Claimed
    | Working
    | Verified(changed: set<string>)
    | InPrimary(changed: set<string>)
    | Recorded(changed: set<string>)
    | Over
  {
    /** It has claimed its handoff and has not yet written the event that ends it. */
    predicate Live() { Claimed? || Working? || Verified? || InPrimary? }
  }

  /** The scope and the HEAD are those its handoff was prepared with. */
  datatype Execution = Execution(key: Key, scope: Scope, head: Files, phase: Phase)

  datatype State = State(
    events: seq<Event>,
    executions: map<Id, Execution>,
    head: Files,
    primary: Files,
    worktrees: set<Id>,
    forceRemoved: set<Id>)

  // ---------------------------------------------------------------- the event log

  predicate Terminal(e: Event, key: Key) {
    (e.Executed? || e.FailedEvent?) && e.key == key
  }

  /** What the prior-event query of _claim_started looks for. */
  predicate Claims(e: Event, key: Key) {
    e == Started(key) || Terminal(e, key)
  }

  predicate ClaimedBefore(events: seq<Event>, key: Key) {
    exists i :: 0 <= i < |events| && Claims(events[i], key)
  }

  /** vres.task_events of one task, as _claim_started changes it under that row's lock. */
  class TaskLog {
    var events: seq<Event>

    method ClaimStarted(key: Key) returns (passed: bool)
      modifies this
      ensures passed <==> !ClaimedBefore(old(events), key)
      ensures events == if passed then old(events) + [Started(key)] else old(events)
    {
      for i := 0 to |events|
        invariant events == old(events)
        invariant forall j :: 0 <= j < i ==> !Claims(events[j], key)
      {
        if Claims(events[i], key) {
          return false;
        }
      }
      events := events + [Started(key)];
      return true;
    }
  }

  // ---------------------------------------------------------------- the steps

  /** `after` is what the primary workspace holds when a step may have touched it. */
  datatype Step =
    | Prepare(key: Key, scope: Scope)
    | Begin(id: Id, key: Key)
    | Claim(id: Id)
    | CreateWorktree(id: Id)
    | Verify(id: Id, changed: set<string>, ignored: set<string>)
    | PromoteStep(id: Id, after: Files)
    | RecordSuccess(id: Id)
    | CleanUp(id: Id, removed: bool)
    | Fail(id: Id, after: Files)
    | Die(id: Id, after: Files)
    | UserEdits(after: Files)
    | UserMovesHead(head: Files, after: Files)

  function Log(s: State, e: Event): State { s.(events := s.events + [e]) }

  function Move(s: State, id: Id, phase: Phase): State
    requires id in s.executions
  {
    s.(executions := s.executions[id := s.executions[id].(phase := phase)])
  }

  ghost predicate Enabled(s: State, step: Step, platform: Platform) {
    match step
    case Prepare(key, scope) => forall e :: e in s.events && e.Prepared? ==> e.key != key
    case Begin(id, key) => id !in s.executions && exists scope, head :: Prepared(key, scope, head) in s.events
    case UserEdits(_) => true
    case UserMovesHead(_, _) => true
    case Claim(id) => id in s.executions && s.executions[id].phase.Located?
    case CreateWorktree(id) => id in s.executions && s.executions[id].phase.Claimed?
    case Verify(id, changed, ignored) =>
      && id in s.executions && s.executions[id].phase.Working?
      && WithinScope(s.executions[id].scope, changed, ignored, platform)
    case PromoteStep(id, after) =>
      && id in s.executions && s.executions[id].phase.Verified?
      && s.head == s.executions[id].head
      && Changed(s.head, s.primary) == {} && Changed(s.head, after) == s.executions[id].phase.changed
    case RecordSuccess(id) => id in s.executions && s.executions[id].phase.InPrimary?
    case CleanUp(id, _) => id in s.executions && s.executions[id].phase.Recorded?
    case Fail(id, after) =>
      && id in s.executions &&
         (s.executions[id].phase.Claimed? || s.executions[id].phase.Working? || s.executions[id].phase.Verified?)
      && (after != s.primary ==> s.executions[id].phase.Verified?)
    case Die(id, after) =>
      && id in s.executions && !s.executions[id].phase.Over?
      && (after != s.primary ==> s.executions[id].phase.Verified?)
  }

  /**
   * The guard of PromoteStep is what _promote does: it ends with `after` in the primary for some answers of the outside
   * world, and without raising or refusing, exactly then.
   */
  lemma PromotesExactlyWhen(head: Files, primary: Files, after: Files, changed: set<string>)
    ensures Changed(head, primary) == {} && Changed(head, after) == changed <==>
              exists f: Faults, holds, validation ::
                f.filesAfterApply == after && Promotes(f, head, primary, changed, holds, validation)
  {
    if Changed(head, primary) == {} && Changed(head, after) == changed {
      var f := PASSED_MEANWHILE.(applyCheck := Returns(true), filesAfterApply := after);
      assert Promotes(f, head, primary, changed, (files: Files) => true, Promotion.Pending);
    }
  }

  ghost function After(s: State, step: Step, platform: Platform): State
    requires Enabled(s, step, platform)
  {
    match step
    case Prepare(key, scope) => Log(s, Prepared(key, scope, s.head))
    case Begin(id, key) =>
      var scope, head :| Prepared(key, scope, head) in s.events;
      s.(executions := s.executions[id := Execution(key, scope, head, Located)])
    case Claim(id) =>
      var key := s.executions[id].key;
      if ClaimedBefore(s.events, key) then Move(s, id, Over) else Log(Move(s, id, Claimed), Started(key))
    case CreateWorktree(id) => Move(s, id, Working).(worktrees := s.worktrees + {id})
    case Verify(id, changed, _) => Move(s, id, Verified(changed))
    case PromoteStep(id, after) => Move(s, id, InPrimary(s.executions[id].phase.changed)).(primary := after)
    case RecordSuccess(id) =>
      var x := s.executions[id];
      Log(Move(s, id, Recorded(x.phase.changed)), Executed(x.key, x.phase.changed))
    case CleanUp(id, removed) =>
      if removed then Move(s, id, Over).(worktrees := s.worktrees - {id}, forceRemoved := s.forceRemoved + {id})
      else Log(Move(s, id, Over), CleanupFailed(s.executions[id].key))
    case Fail(id, after) => Log(Move(s, id, Over), FailedEvent(s.executions[id].key)).(primary := after)
    case Die(id, after) => Move(s, id, Over).(primary := after)
    case UserEdits(after) => s.(primary := after)
    case UserMovesHead(head, after) => s.(head := head, primary := after)
  }

  // ---------------------------------------------------------------- what every step keeps

  /** One claim per handoff, at most one end, and no end without a claim before it. */
  ghost predicate LogOk(events: seq<Event>) {
    && (forall i, j, k :: 0 <= i < j < |events| && events[i] == Started(k) ==> events[j] != Started(k))
    && (forall i, j, k :: 0 <= i < j < |events| && Terminal(events[i], k) ==> !Terminal(events[j], k))
    && (forall j, k :: 0 <= j < |events| && Terminal(events[j], k) ==> Started(k) in events[..j])
  }

  ghost predicate HasTerminal(events: seq<Event>, k: Key) {
    exists i :: 0 <= i < |events| && Terminal(events[i], k)
  }

  /** Every success recorded is a change that lay within the scope its handoff declared. */
  ghost predicate SuccessesInScope(events: seq<Event>, platform: Platform) {
    forall k, c :: Executed(k, c) in events ==>
                     exists scope, head :: Prepared(k, scope, head) in events && WithinScope(scope, c, {}, platform)
  }

  ghost predicate Sound(s: State, id: Id, x: Execution, platform: Platform) {
    && Prepared(x.key, x.scope, x.head) in s.events
    && (x.phase.Live() ==> Started(x.key) in s.events && !HasTerminal(s.events, x.key))
    && (x.phase.Verified? || x.phase.InPrimary? ==> WithinScope(x.scope, x.phase.changed, {}, platform))
    && (x.phase.Recorded? ==> Executed(x.key, x.phase.changed) in s.events)
    && (id in s.forceRemoved ==> exists c :: Executed(x.key, c) in s.events)
  }

  ghost predicate ExecutionOk(s: State, id: Id, platform: Platform) {
    id in s.executions ==> Sound(s, id, s.executions[id], platform)
  }

  /** No two executions hold the same handoff. */
  ghost predicate Exclusive(s: State, a: Id, b: Id) {
    a in s.executions && b in s.executions && a != b && s.executions[a].phase.Live() && s.executions[b].phase.Live() ==>
      s.executions[a].key != s.executions[b].key
  }

  ghost predicate Inv(s: State, platform: Platform) {
    && LogOk(s.events) && SuccessesInScope(s.events, platform)
    && s.forceRemoved <= s.executions.Keys
    && (forall id :: ExecutionOk(s, id, platform))
    && (forall a, b :: Exclusive(s, a, b))
  }

  lemma LogAppend(events: seq<Event>, e: Event)
    requires LogOk(events)
    requires e.Started? ==> !ClaimedBefore(events, e.key)
    requires e.Executed? || e.FailedEvent? ==> Started(e.key) in events && !HasTerminal(events, e.key)
    ensures LogOk(events + [e])
  {
    var after := events + [e];
    forall j, k | 0 <= j < |after| && Terminal(after[j], k) ensures Started(k) in after[..j] {
      if j < |events| {
        assert after[..j] == events[..j];
      } else {
        assert after[..j] == events;
      }
    }
    forall i, j, k | 0 <= i < j < |after| && after[i] == Started(k) ensures after[j] != Started(k) {
      StartClaims(events, i, k);
    }
  }

  lemma StartClaims(events: seq<Event>, i: nat, k: Key)
    requires i < |events| && events[i] == Started(k)
    ensures ClaimedBefore(events, k)
  {
    assert Claims(events[i], k);
  }

  /** An execution that does not move stays sound while the log grows, unless its own handoff is ended under it. */
  lemma ExecutionStays(s: State, t: State, id: Id, platform: Platform)
    requires id in s.executions && id in t.executions && t.executions[id] == s.executions[id]
    requires ExecutionOk(s, id, platform) && s.events <= t.events
    requires id in t.forceRemoved ==> id in s.forceRemoved
    requires s.executions[id].phase.Live() ==> !HasTerminal(t.events, s.executions[id].key)
    ensures ExecutionOk(t, id, platform)
  {
    assert forall e :: e in s.events ==> e in t.events;
  }

  lemma SuccessesAppend(events: seq<Event>, e: Event, platform: Platform)
    requires SuccessesInScope(events, platform)
    requires e.Executed? ==>
              exists scope, head :: Prepared(e.key, scope, head) in events &&
                WithinScope(scope, e.changed, {}, platform)
    ensures SuccessesInScope(events + [e], platform)
  {
    assert forall x :: x in events ==> x in events + [e];
  }

  /** The event an execution writes when it leaves a live phase ends nobody else's handoff. */
  lemma OthersUnended(s: State, id: Id, other: Id, e: Event, platform: Platform)
    requires Inv(s, platform) && id in s.executions && other in s.executions && other != id
    requires s.executions[id].phase.Live() && s.executions[other].phase.Live()
    requires e.Executed? || e.FailedEvent? ==> e.key == s.executions[id].key
    ensures !HasTerminal(s.events + [e], s.executions[other].key)
  {
    assert ExecutionOk(s, other, platform);
    assert Exclusive(s, id, other);
  }

  lemma ClaimKeeps(s: State, id: Id, t: State, platform: Platform)
    requires Inv(s, platform) && id in s.executions && s.executions[id].phase.Located?
    requires !ClaimedBefore(s.events, s.executions[id].key)
    requires t == Log(Move(s, id, Claimed), Started(s.executions[id].key))
    ensures Inv(t, platform)
  {
    var key := s.executions[id].key;
    assert ExecutionOk(s, id, platform);
    LogAppend(s.events, Started(key));
    SuccessesAppend(s.events, Started(key), platform);
    assert t.events[|s.events|] == Started(key);
    assert !HasTerminal(t.events, key) by {
      assert forall i :: 0 <= i < |s.events| ==> !Claims(s.events[i], key);
    }
    forall other ensures ExecutionOk(t, other, platform) {
      assert ExecutionOk(s, other, platform);
      if other in s.executions && other != id {
        ExecutionStays(s, t, other, platform);
      }
    }
    forall a, b ensures Exclusive(t, a, b) {
      assert Exclusive(s, a, b);
      LiveIsClaimed(s, a, platform);
      LiveIsClaimed(s, b, platform);
    }
  }

  lemma LiveIsClaimed(s: State, id: Id, platform: Platform)
    requires Inv(s, platform)
    ensures id in s.executions && s.executions[id].phase.Live() ==> ClaimedBefore(s.events, s.executions[id].key)
  {
    assert ExecutionOk(s, id, platform);
    if id in s.executions && s.executions[id].phase.Live() {
      var i :| 0 <= i < |s.events| && s.events[i] == Started(s.executions[id].key);
      assert Claims(s.events[i], s.executions[id].key);
    }
  }

  lemma EndKeepsOther(s: State, id: Id, other: Id, t: State, e: Event, platform: Platform)
    requires Inv(s, platform) && id in s.executions && other in s.executions && other != id
    requires s.executions[id].phase.Live()
    requires e.Executed? || e.FailedEvent? ==> e.key == s.executions[id].key
    requires t.events == s.events + [e] && t.forceRemoved == s.forceRemoved
    requires other in t.executions && t.executions[other] == s.executions[other]
    ensures ExecutionOk(t, other, platform)
  {
    assert ExecutionOk(s, other, platform);
    if s.executions[other].phase.Live() {
      OthersUnended(s, id, other, e, platform);
    }
    ExecutionStays(s, t, other, platform);
  }

  /** Steps that end a live execution with an event of its own handoff. */
  lemma EndKeeps(s: State, id: Id, t: State, e: Event, phase: Phase, platform: Platform)
    requires Inv(s, platform) && id in s.executions && s.executions[id].phase.Live()
    requires (e == FailedEvent(s.executions[id].key) && phase == Over) ||
             (s.executions[id].phase.InPrimary? && phase == Recorded(s.executions[id].phase.changed)
              && e == Executed(s.executions[id].key, s.executions[id].phase.changed))
    requires t.events == s.events + [e] && t.forceRemoved == s.forceRemoved
    requires t.executions == Move(s, id, phase).executions
    ensures Inv(t, platform)
  {
    assert ExecutionOk(s, id, platform);
    LogAppend(s.events, e);
    SuccessesAppend(s.events, e, platform);
    assert e in t.events;
    forall other ensures ExecutionOk(t, other, platform) {
      assert ExecutionOk(s, other, platform);
      if other in s.executions && other != id {
        EndKeepsOther(s, id, other, t, e, platform);
      } else {
        assert forall x :: x in s.events ==> x in t.events;
      }
    }
    forall a, b ensures Exclusive(t, a, b) {
      assert Exclusive(s, a, b);
    }
  }

  /** Steps that move one execution, write no claim and end nothing. */
  lemma QuietKeeps(s: State, id: Id, t: State, phase: Phase, platform: Platform)
    requires Inv(s, platform) && id in s.executions
    requires t.executions == Move(s, id, phase).executions
    requires t.events == s.events || t.events == s.events + [CleanupFailed(s.executions[id].key)]
    requires phase.Live() ==> s.executions[id].phase.Live()
    requires phase.Verified? || phase.InPrimary? ==> WithinScope(s.executions[id].scope, phase.changed, {}, platform)
    requires !phase.Recorded?
    requires t.forceRemoved ==
              s.forceRemoved || (t.forceRemoved == s.forceRemoved + {id} && s.executions[id].phase.Recorded?)
    ensures Inv(t, platform)
  {
    if t.events != s.events {
      LogAppend(s.events, CleanupFailed(s.executions[id].key));
      SuccessesAppend(s.events, CleanupFailed(s.executions[id].key), platform);
    }
    forall other ensures ExecutionOk(t, other, platform) {
      assert ExecutionOk(s, other, platform);
      if other in s.executions && other != id {
        ExecutionStays(s, t, other, platform);
      } else {
        assert forall x :: x in s.events ==> x in t.events;
      }
    }
    forall a, b ensures Exclusive(t, a, b) {
      assert Exclusive(s, a, b);
    }
  }

  /** Steps that move no existing execution. */
  lemma OutsideKeeps(s: State, t: State, platform: Platform)
    requires Inv(s, platform) && t.forceRemoved == s.forceRemoved
    requires t.events == s.events || exists k, scope, head :: t.events == s.events + [Prepared(k, scope, head)]
    requires forall id :: id in s.executions ==> id in t.executions && t.executions[id] == s.executions[id]
    requires forall id :: id in t.executions && id !in s.executions ==>
                            t.executions[id].phase.Located? &&
                              Prepared(t.executions[id].key, t.executions[id].scope, t.executions[id].head) in s.events
    ensures Inv(t, platform)
  {
    if t.events != s.events {
      var k, scope, head :| t.events == s.events + [Prepared(k, scope, head)];
      LogAppend(s.events, Prepared(k, scope, head));
      SuccessesAppend(s.events, Prepared(k, scope, head), platform);
    }
    forall id ensures ExecutionOk(t, id, platform) {
      assert ExecutionOk(s, id, platform);
      if id in s.executions {
        ExecutionStays(s, t, id, platform);
      } else {
        assert forall x :: x in s.events ==> x in t.events;
      }
    }
    forall a, b ensures Exclusive(t, a, b) {
      assert Exclusive(s, a, b);
    }
  }

  lemma StepKeepsInv(s: State, step: Step, platform: Platform)
    requires Inv(s, platform) && Enabled(s, step, platform)
    ensures Inv(After(s, step, platform), platform)
  {
    var t := After(s, step, platform);
    match step
    case Prepare(key, scope) => OutsideKeeps(s, t, platform);
    case Begin(id, key) => OutsideKeeps(s, t, platform);
    case UserEdits(_) => OutsideKeeps(s, t, platform);
    case UserMovesHead(_, _) => OutsideKeeps(s, t, platform);
    case Claim(id) =>
      if ClaimedBefore(s.events, s.executions[id].key) {
        QuietKeeps(s, id, t, Over, platform);
      } else {
        ClaimKeeps(s, id, t, platform);
      }
    case RecordSuccess(id) =>
      var x := s.executions[id];
      EndKeeps(s, id, t, Executed(x.key, x.phase.changed), Recorded(x.phase.changed), platform);
    case Fail(id, _) => EndKeeps(s, id, t, FailedEvent(s.executions[id].key), Over, platform);
    case CreateWorktree(id) => QuietKeeps(s, id, t, Working, platform);
    case Verify(id, changed, ignored) => QuietKeeps(s, id, t, Verified(changed), platform);
    case PromoteStep(id, _) =>
      assert ExecutionOk(s, id, platform);
      QuietKeeps(s, id, t, InPrimary(s.executions[id].phase.changed), platform);
    case CleanUp(id, removed) => QuietKeeps(s, id, t, Over, platform);
    case Die(id, _) => QuietKeeps(s, id, t, Over, platform);
  }

  // ---------------------------------------------------------------- runs

  const INITIAL := State([], map[], map[], map[], {}, {})

  /** states[i + 1] results from states[i] by steps[i]. */
  ghost predicate Run(states: seq<State>, steps: seq<Step>, platform: Platform) {
    && |states| == |steps| + 1
    && states[0] == INITIAL.(head := states[0].head, primary := states[0].primary)
    && forall i :: 0 <= i < |steps| ==>
                     Enabled(states[i], steps[i], platform) && states[i + 1] == After(states[i], steps[i], platform)
  }

  lemma {:induction false} RunKeepsInv(states: seq<State>, steps: seq<Step>, platform: Platform, n: nat)
    requires Run(states, steps, platform) && n < |states|
    ensures Inv(states[n], platform)
  {
    if n > 0 {
      RunKeepsInv(states, steps, platform, n - 1);
      StepKeepsInv(states[n - 1], steps[n - 1], platform);
    }
  }

  // ---------------------------------------------------------------- what every run guarantees

  /**
   * However executions interleave, a handoff is claimed at most once and ended at most once, and only after its claim.
   */
  lemma OneClaimOneEnd(states: seq<State>, steps: seq<Step>, platform: Platform, n: nat, key: Key, i: nat, j: nat)
    requires Run(states, steps, platform) && n < |states|
    requires i < |states[n].events| && j < |states[n].events|
    ensures states[n].events[i] == Started(key) && states[n].events[j] == Started(key) ==> i == j
    ensures Terminal(states[n].events[i], key) && Terminal(states[n].events[j], key) ==> i == j
    ensures Terminal(states[n].events[j], key) ==> Started(key) in states[n].events[..j]
  {
    RunKeepsInv(states, steps, platform, n);
  }

  /** Step i of the run put the change c of handoff k into a primary workspace that was clean. */
  ghost predicate PromotedAt(states: seq<State>, steps: seq<Step>, i: nat, k: Key, c: set<string>) {
    && i < |steps| && i + 1 < |states| && steps[i].PromoteStep?
    && steps[i].id in states[i].executions && states[i].executions[steps[i].id].key == k
    && states[i].head == states[i].executions[steps[i].id].head == states[i + 1].head
    && Prepared(k, states[i].executions[steps[i].id].scope, states[i].head) in states[i].events
    && Changed(states[i].head, states[i].primary) == {} && Changed(states[i].head, states[i + 1].primary) == c
  }

  ghost predicate PromotedBefore(states: seq<State>, steps: seq<Step>, n: nat, k: Key, c: set<string>) {
    exists i: nat :: i < n && PromotedAt(states, steps, i, k, c)
  }

  ghost predicate EventExplained(states: seq<State>, steps: seq<Step>, n: nat, k: Key, c: set<string>) {
    n < |states| && Executed(k, c) in states[n].events ==> PromotedBefore(states, steps, n, k, c)
  }

  ghost predicate PhaseExplained(states: seq<State>, steps: seq<Step>, n: nat, id: Id) {
    n < |states| && id in states[n].executions && states[n].executions[id].phase.InPrimary? ==>
      PromotedBefore(states, steps, n, states[n].executions[id].key, states[n].executions[id].phase.changed)
  }

  /** Only RecordSuccess writes EXECUTED, for what it has in the primary; only PromoteStep puts anything there. */
  lemma WhoRecords(s: State, step: Step, platform: Platform, k: Key, c: set<string>)
    requires Enabled(s, step, platform)
    requires Executed(k, c) in After(s, step, platform).events && Executed(k, c) !in s.events
    ensures step.RecordSuccess?
    ensures s.executions[step.id] == Execution(k, s.executions[step.id].scope, s.executions[step.id].head, InPrimary(c))
  {
  }

  lemma WhoPromotes(s: State, step: Step, platform: Platform, id: Id)
    requires Enabled(s, step, platform)
    requires id in After(s, step, platform).executions && After(s, step, platform).executions[id].phase.InPrimary?
    requires !(step.PromoteStep? && step.id == id)
    ensures id in s.executions && s.executions[id] == After(s, step, platform).executions[id]
  {
  }

  lemma StillBefore(states: seq<State>, steps: seq<Step>, n: nat, k: Key, c: set<string>)
    requires PromotedBefore(states, steps, n, k, c)
    ensures PromotedBefore(states, steps, n + 1, k, c)
  {
    var i: nat :| i < n && PromotedAt(states, steps, i, k, c);
    assert i < n + 1;
  }

  lemma {:induction false} AllExplained(states: seq<State>, steps: seq<Step>, platform: Platform, n: nat)
    requires Run(states, steps, platform) && n < |states|
    ensures forall k, c :: EventExplained(states, steps, n, k, c)
    ensures forall id :: PhaseExplained(states, steps, n, id)
  {
    if n > 0 {
      var s, step, t := states[n - 1], steps[n - 1], states[n];
      AllExplained(states, steps, platform, n - 1);
      assert Enabled(s, step, platform) && t == After(s, step, platform);
      forall k, c ensures EventExplained(states, steps, n, k, c) {
        assert EventExplained(states, steps, n - 1, k, c);
        if Executed(k, c) in t.events {
          if Executed(k, c) !in s.events {
            WhoRecords(s, step, platform, k, c);
            assert PhaseExplained(states, steps, n - 1, step.id);
          }
          StillBefore(states, steps, n - 1, k, c);
        }
      }
      forall id ensures PhaseExplained(states, steps, n, id) {
        assert PhaseExplained(states, steps, n - 1, id);
        if id in t.executions && t.executions[id].phase.InPrimary? {
          if step.PromoteStep? && step.id == id {
            RunKeepsInv(states, steps, platform, n - 1);
            assert ExecutionOk(s, id, platform);
            assert PromotedAt(states, steps, n - 1, t.executions[id].key, t.executions[id].phase.changed);
          } else {
            WhoPromotes(s, step, platform, id);
            StillBefore(states, steps, n - 1, t.executions[id].key, t.executions[id].phase.changed);
          }
        }
      }
    }
  }

  /**
   * A recorded success means that the primary, clean before, once differed in exactly the recorded paths from the HEAD
   * that the handoff was prepared at, which was then HEAD still, and that these paths lay within the prepared scope and
   * covered everything it required.
   */
  lemma ExecutedMeansPromotedInScope(states: seq<State>, steps: seq<Step>, platform: Platform,
                                     n: nat, k: Key, c: set<string>)
    requires Run(states, steps, platform) && n < |states|
    requires Executed(k, c) in states[n].events
    ensures PromotedBefore(states, steps, n, k, c)
    ensures exists scope, head :: Prepared(k, scope, head) in states[n].events && WithinScope(scope, c, {}, platform)
  {
    AllExplained(states, steps, platform, n);
    assert EventExplained(states, steps, n, k, c);
    RunKeepsInv(states, steps, platform, n);
  }

  /** No worktree disappears except by the cleanup of an execution whose success is already in the log. */
  lemma RemovalOnlyAfterSuccess(states: seq<State>, steps: seq<Step>, platform: Platform, n: nat, id: Id)
    requires Run(states, steps, platform) && n < |steps|
    requires id in states[n].worktrees && id !in states[n + 1].worktrees
    ensures steps[n] == CleanUp(id, true) && id in states[n].executions
    ensures exists c :: Executed(states[n].executions[id].key, c) in states[n].events
  {
    RunKeepsInv(states, steps, platform, n);
    assert ExecutionOk(states[n], id, platform);
  }

  lemma EndsOnce(events: seq<Event>, i: int, j: int, k: Key)
    requires LogOk(events) && 0 <= i < |events| && 0 <= j < |events| && Terminal(events[j], k)
    ensures Terminal(events[i], k) ==> i == j
  {
  }

  /** A handoff that ended in failure is never executed, and none of its worktrees is removed by force. */
  lemma FailureIsFinal(states: seq<State>, steps: seq<Step>, platform: Platform, n: nat, k: Key)
    requires Run(states, steps, platform) && n < |states| && FailedEvent(k) in states[n].events
    ensures forall c :: Executed(k, c) !in states[n].events
    ensures forall id :: id in states[n].executions && states[n].executions[id].key == k ==>
                id !in states[n].forceRemoved
  {
    RunKeepsInv(states, steps, platform, n);
    var j :| 0 <= j < |states[n].events| && states[n].events[j] == FailedEvent(k);
    assert Terminal(states[n].events[j], k);
    forall i, c | 0 <= i < |states[n].events| ensures states[n].events[i] != Executed(k, c) {
      EndsOnce(states[n].events, i, j, k);
    }
    forall id | id in states[n].executions && states[n].executions[id].key == k ensures id !in states[n].forceRemoved {
      assert ExecutionOk(states[n], id, platform);
    }
  }

  // ---------------------------------------------------------------- keys and the primary workspace

  ghost predicate PreparedOnce(events: seq<Event>) {
    forall i, j :: 0 <= i < j < |events| && events[i].Prepared? && events[j].Prepared? ==>
      events[i].key != events[j].key
  }

  lemma StepPreparesOnce(s: State, step: Step, platform: Platform)
    requires Enabled(s, step, platform) && PreparedOnce(s.events)
    ensures PreparedOnce(After(s, step, platform).events)
  {
    var after := After(s, step, platform).events;
    forall i, j | 0 <= i < j < |after| && after[i].Prepared? && after[j].Prepared?
      ensures after[i].key != after[j].key
    {
      assert after[i] == s.events[i] && after[i] in s.events;
    }
  }

  /** Every handoff of a run has one scope and one HEAD: those it was prepared with. */
  lemma {:induction false} EachPreparedOnce(states: seq<State>, steps: seq<Step>, platform: Platform, n: nat)
    requires Run(states, steps, platform) && n < |states|
    ensures PreparedOnce(states[n].events)
  {
    if n > 0 {
      EachPreparedOnce(states, steps, platform, n - 1);
      StepPreparesOnce(states[n - 1], steps[n - 1], platform);
    }
  }

  /**
   * Besides the user, only an execution whose changes were verified to lie in its scope touches the primary workspace:
   * by its promotion, which leaves just these changes, or when it fails or dies.
   */
  lemma OnlyVerifiedTouchThePrimary(states: seq<State>, steps: seq<Step>, platform: Platform, n: nat)
    requires Run(states, steps, platform) && n < |steps| && states[n + 1].primary != states[n].primary
    requires !steps[n].UserEdits? && !steps[n].UserMovesHead?
    ensures steps[n].PromoteStep? || steps[n].Fail? || steps[n].Die?
    ensures var x := steps[n].id;
            && x in states[n].executions && states[n].executions[x].phase.Verified?
            && WithinScope(states[n].executions[x].scope, states[n].executions[x].phase.changed, {}, platform)
            && (steps[n].PromoteStep? ==>
                  Changed(states[n].head, states[n + 1].primary) == states[n].executions[x].phase.changed)
  {
    RunKeepsInv(states, steps, platform, n);
    assert Enabled(states[n], steps[n], platform);
    if steps[n].PromoteStep? || steps[n].Fail? || steps[n].Die? {
      assert ExecutionOk(states[n], steps[n].id, platform);
    }
  }
}
