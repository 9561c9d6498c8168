/**
 * What every run of the knowledge services keeps: one event per request, and a retirement that can be undone exactly.
 */
module KnowledgeRuns {
  import opened KnowledgeModel
  import opened Wrappers

  // ---------------------------------------------------------------- idempotency keys

  /** ApprovalService makes keys of the form APPROVAL-<hex>, which hold no separator. */
  predicate ApprovalKeysOk(approvals: Approvals) {
    forall a :: a in approvals ==> '|' !in a
  }

  lemma SplitAtFirst(a: string, x: string, b: string, y: string)
    requires a + "|" + x == b + "|" + y && '|' !in a && '|' !in b
    ensures a == b && x == y
  {
    var s := a + "|" + x;
    assert s[|a|] == '|' && s[|b|] == '|';
    assert forall i :: 0 <= i < |a| ==> s[i] == a[i];
    assert forall i :: 0 <= i < |b| ==> s[i] == b[i];
    assert s[..|a|] == a && s[..|b|] == b && s[|a| + 1..] == x && s[|b| + 1..] == y;
  }

  lemma SplitAtLast(x: string, a: string, y: string, b: string)
    requires x + "|" + a == y + "|" + b && '|' !in a && '|' !in b
    ensures a == b && x == y
  {
    var s := x + "|" + a;
    assert s[|x|] == '|' && s[|y|] == '|';
    assert forall i :: |x| < i < |s| ==> s[i] == a[i - |x| - 1];
    assert forall i :: |y| < i < |s| ==> s[i] == b[i - |y| - 1];
    assert s[..|x|] == x && s[..|y|] == y && s[|x| + 1..] == a && s[|y| + 1..] == b;
  }

  /** The hashed text determines the action, the target text and the approval, whatever the target keys contain. */
  lemma IdemTextInjective(a: Action, target: Key, cause: string, b: Action, target': Key, cause': string)
    requires IdemText(a, target, cause) == IdemText(b, target', cause') && '|' !in cause && '|' !in cause'
    ensures Name(a) == Name(b) && TargetText(a, target) == TargetText(b, target') && cause == cause'
  {
    var x, y := "knowledge|" + TargetText(a, target), "knowledge|" + TargetText(b, target');
    var rest, rest' := Name(a) + "|" + (x + "|" + cause), Name(b) + "|" + (y + "|" + cause');
    SplitAtFirst(POLICY_VERSION, rest, POLICY_VERSION, rest');
    SplitAtFirst(Name(a), x + "|" + cause, Name(b), y + "|" + cause');
    SplitAtLast(x, cause, y, cause');
    assert x[10..] == TargetText(a, target) && y[10..] == TargetText(b, target');
  }

  /** The event was recorded for a request under an existing approval. */
  predicate EventOk(e: Event, approvals: Approvals) {
    && e.cause in approvals && e.idem == IdemText(e.action, e.target, e.cause)
    && e.digest == DigestOf(e.action, e.digest.reason)
  }

  ghost predicate LedgerOk(ledger: seq<Event>, approvals: Approvals) {
    && (forall i :: 0 <= i < |ledger| ==> EventOk(ledger[i], approvals))
    && (forall i, j :: 0 <= i < j < |ledger| ==> ledger[i].idem != ledger[j].idem)
  }

  /** What an applied request does: it appends its event and rewrites the one row it is about. */
  lemma AppliedShape(s: State, approvals: Approvals, r: Request)
    requires Decide(s, approvals, r).Applied?
    ensures r.target in s.items && r.approval in approvals && r.project.Some? && s.items[r.target].project == r.project
    ensures r.action.Supersede? ==> r.action.successor in s.items && r.action.successor != r.target
    ensures Apply(s, r).Row?
    ensures AfterRequest(s, approvals, r) ==
              State(s.items[r.target := Apply(s, r).item], s.ledger + [EventOf(s, r, Apply(s, r).item.status)])
    ensures forall i :: 0 <= i < |s.ledger| ==> s.ledger[i].idem != IdemText(r.action, r.target, r.approval)
  {
  }

  /** Everything else leaves the ledger and every retirement alone. */
  lemma OutsideShape(s: State, approvals: Approvals, step: Step, k: Key)
    requires step.Lifecycle? ==> !Decide(s, approvals, step.request).Applied?
    ensures After(s, approvals, step).ledger == s.ledger
    ensures k in s.items ==>
              k in After(s, approvals, step).items && After(s, approvals, step).items[k].project == s.items[k].project
    ensures k in After(s, approvals, step).items ==>
              (After(s, approvals, step).items[k].status == Retired <==> k in s.items && s.items[k].status == Retired)
  {
  }

  lemma StepKeepsLedger(s: State, approvals: Approvals, step: Step)
    requires LedgerOk(s.ledger, approvals)
    ensures LedgerOk(After(s, approvals, step).ledger, approvals)
    ensures s.ledger <= After(s, approvals, step).ledger
  {
    if step.Lifecycle? && Decide(s, approvals, step.request).Applied? {
      AppliedShape(s, approvals, step.request);
    } else {
      OutsideShape(s, approvals, step, "");
    }
  }

  /**
   * A replayed answer is the record of the very same request: same action, target, successor, review date and reason.
   */
  lemma ReplayIsTheSameRequest(s: State, approvals: Approvals, r: Request)
    requires LedgerOk(s.ledger, approvals) && ApprovalKeysOk(approvals)
    requires Decide(s, approvals, r).Replayed?
    ensures AfterRequest(s, approvals, r) == s
    ensures var e := Decide(s, approvals, r).event;
            e in s.ledger && e.action == r.action && e.target == r.target && e.cause == r.approval
            && e.digest.reason == r.reason && Some(e.project) == r.project
  {
    var e := Decide(s, approvals, r).event;
    assert e in s.ledger && EventOk(e, approvals);
    SameRecord(e, approvals, r);
  }

  lemma SameRecord(e: Event, approvals: Approvals, r: Request)
    requires EventOk(e, approvals) && ApprovalKeysOk(approvals) && r.approval in approvals
    requires e.idem == IdemText(r.action, r.target, r.approval) && e.digest == DigestOf(r.action, r.reason)
    ensures e.action == r.action && e.target == r.target && e.cause == r.approval
  {
    IdemTextInjective(e.action, e.target, e.cause, r.action, r.target, r.approval);
    NamesDiffer(e.action, r.action);
    assert e.action == r.action;
    if r.action.Supersede? {
      SameHead(e.target, r.target, "->", r.action.successor);
    }
  }

  lemma NamesDiffer(a: Action, b: Action)
    requires Name(a) == Name(b) && SuccessorOf(a) == SuccessorOf(b) && ReviewOf(a) == ReviewOf(b)
    ensures a == b
  {
  }

  lemma SameHead(x: string, y: string, arrow: string, tail: string)
    requires x + arrow + tail == y + arrow + tail
    ensures x == y
  {
    assert (x + arrow + tail)[..|x|] == x && (y + arrow + tail)[..|y|] == y;
  }

  // ---------------------------------------------------------------- retirement

  /** A retired row's latest retire event is of its own project and remembers a live status. */
  ghost predicate RetiredOk(s: State, k: Key) {
    k in s.items && s.items[k].status == Retired ==>
      var last := LastRetire(s.ledger, k);
      && last.Some? && Some(s.ledger[last.value].project) == s.items[k].project
      && s.ledger[last.value].next == Retired && s.ledger[last.value].prior in LIVE_PRIORS
  }

  ghost predicate AllRetiredOk(s: State) { forall k :: RetiredOk(s, k) }

  lemma LastAppend(ledger: seq<Event>, e: Event, k: Key)
    ensures LastRetire(ledger + [e], k) == if Retires(e, k) then Some(|ledger|) else LastRetire(ledger, k)
  {
    assert (ledger + [e])[..|ledger|] == ledger;
  }

  /** Only an applied retire can make a row retired; then its event holds the status it had. */
  lemma StepRetires(s: State, approvals: Approvals, step: Step, k: Key)
    requires k in After(s, approvals, step).items && After(s, approvals, step).items[k].status == Retired
    requires !(k in s.items && s.items[k].status == Retired)
    ensures k in s.items && s.items[k].status in LIVE_PRIORS
    ensures step.Lifecycle? && step.request.action.Retire? && step.request.target == k
    ensures Decide(s, approvals, step.request) == Applied(EventOf(s, step.request, Retired))
    ensures After(s, approvals, step).ledger == s.ledger + [EventOf(s, step.request, Retired)]
    ensures s.items[k].project == step.request.project
    ensures LastRetire(After(s, approvals, step).ledger, k) == Some(|s.ledger|)
  {
    if step.Lifecycle? && Decide(s, approvals, step.request).Applied? {
      AppliedShape(s, approvals, step.request);
      LastAppend(s.ledger, Decide(s, approvals, step.request).event, k);
    } else {
      OutsideShape(s, approvals, step, k);
    }
  }

  /** While a row stays retired, its latest retire event stays the same. */
  lemma StepKeepsRetirement(s: State, approvals: Approvals, step: Step, k: Key)
    requires RetiredOk(s, k)
    requires k in s.items && s.items[k].status == Retired
    requires k in After(s, approvals, step).items && After(s, approvals, step).items[k].status == Retired
    ensures LastRetire(After(s, approvals, step).ledger, k) == LastRetire(s.ledger, k)
    ensures After(s, approvals, step).items[k].project == s.items[k].project
    ensures s.ledger <= After(s, approvals, step).ledger
  {
    if step.Lifecycle? && Decide(s, approvals, step.request).Applied? {
      AppliedShape(s, approvals, step.request);
      LastAppend(s.ledger, Decide(s, approvals, step.request).event, k);
      RetiredIsNotRetired(s, approvals, step.request, k);
    } else {
      OutsideShape(s, approvals, step, k);
    }
  }

  /** A retire is never applied to a retired row, and no request changes a row's project. */
  lemma RetiredIsNotRetired(s: State, approvals: Approvals, r: Request, k: Key)
    requires Decide(s, approvals, r).Applied? && k in s.items && s.items[k].status == Retired
    ensures !Retires(Decide(s, approvals, r).event, k)
    ensures k in AfterRequest(s, approvals, r).items
    ensures AfterRequest(s, approvals, r).items[k].project == s.items[k].project
  {
  }

  lemma StepKeepsRetiredOk(s: State, approvals: Approvals, step: Step, k: Key)
    requires RetiredOk(s, k)
    ensures RetiredOk(After(s, approvals, step), k)
  {
    var t := After(s, approvals, step);
    if k in t.items && t.items[k].status == Retired {
      if k in s.items && s.items[k].status == Retired {
        StepKeepsRetirement(s, approvals, step, k);
      } else {
        StepRetires(s, approvals, step, k);
      }
    }
  }

  /** Where runs start: nothing retired, and a ledger of the service's own making. */
  ghost predicate Initial(s: State, approvals: Approvals) {
    && (forall k :: k in s.items ==> s.items[k].status != Retired)
    && LedgerOk(s.ledger, approvals)
  }

  lemma {:induction false} RunKeeps(states: seq<State>, steps: seq<Step>, approvals: Approvals, n: nat)
    requires Run(states, steps, approvals) && Initial(states[0], approvals) && n < |states|
    ensures LedgerOk(states[n].ledger, approvals) && AllRetiredOk(states[n])
  {
    if n > 0 {
      var i := n - 1;
      RunKeeps(states, steps, approvals, i);
      assert states[n] == After(states[i], approvals, steps[i]);
      StepKeepsLedger(states[i], approvals, steps[i]);
      forall k ensures RetiredOk(states[n], k) {
        assert RetiredOk(states[i], k);
        StepKeepsRetiredOk(states[i], approvals, steps[i], k);
      }
    }
  }

  /** The branch that reports a corrupt lifecycle history is never taken. */
  lemma HistoryIsNeverCorrupt(states: seq<State>, steps: seq<Step>, approvals: Approvals, n: nat, r: Request)
    requires Run(states, steps, approvals) && Initial(states[0], approvals) && n < |states|
    ensures Decide(states[n], approvals, r) != Failed(CorruptHistory)
  {
    RunKeeps(states, steps, approvals, n);
    assert RetiredOk(states[n], r.target);
  }

  /** The row k was live in state m, was retired right after it, and has been retired ever since, up to state n. */
  ghost predicate RetiredSince(states: seq<State>, k: Key, m: nat, n: nat) {
    && m < n < |states| && k in states[m].items && states[m].items[k].status in LIVE_PRIORS
    && forall j :: m < j <= n ==> k in states[j].items && states[j].items[k].status == Retired
  }

  /** The latest retire event of a retired row holds the status that the row had just before it was retired. */
  lemma {:induction false} LastRetireIsTheRetirement(states: seq<State>, steps: seq<Step>, approvals: Approvals, n: nat,
                                                     k: Key)
    returns (m: nat)
    requires Run(states, steps, approvals) && Initial(states[0], approvals) && n < |states|
    requires k in states[n].items && states[n].items[k].status == Retired
    ensures RetiredSince(states, k, m, n)
    ensures var last := LastRetire(states[n].ledger, k);
            last.Some? && states[n].ledger[last.value].prior == states[m].items[k].status
  {
    var i := n - 1;
    assert states[n] == After(states[i], approvals, steps[i]);
    if k in states[i].items && states[i].items[k].status == Retired {
      m := LastRetireIsTheRetirement(states, steps, approvals, i, k);
      RunKeeps(states, steps, approvals, i);
      assert RetiredOk(states[i], k);
      StepKeepsRetirement(states[i], approvals, steps[i], k);
    } else {
      StepRetires(states[i], approvals, steps[i], k);
      m := i;
    }
  }

  /** An approved reinstate gives a retired row back exactly the status it had before it was retired. */
  lemma ReinstateRestoresThePriorStatus(states: seq<State>, steps: seq<Step>, approvals: Approvals, n: nat, r: Request)
    returns (m: nat)
    requires Run(states, steps, approvals) && Initial(states[0], approvals) && n < |states|
    requires r.action.Reinstate? && Decide(states[n], approvals, r).Applied?
    ensures RetiredSince(states, r.target, m, n)
    ensures AfterRequest(states[n], approvals, r).items ==
              states[n].items[r.target := states[n].items[r.target].(status := states[m].items[r.target].status)]
  {
    m := LastRetireIsTheRetirement(states, steps, approvals, n, r.target);
  }

  /** And whenever the row is retired and the request is well-formed, approved and new, the reinstate is applied. */
  lemma ReinstateIsAlwaysPossible(states: seq<State>, steps: seq<Step>, approvals: Approvals, n: nat, r: Request)
    requires Run(states, steps, approvals) && Initial(states[0], approvals) && n < |states|
    requires r.action.Reinstate? && InputError(r).None? && AccessError(states[n].items, approvals, r).None?
    requires FindIdem(states[n].ledger, IdemText(r.action, r.target, r.approval)).None?
    ensures Decide(states[n], approvals, r).Applied? <==> states[n].items[r.target].status == Retired
  {
    RunKeeps(states, steps, approvals, n);
    assert RetiredOk(states[n], r.target);
  }

  // ---------------------------------------------------------------- replay

  /** Rows are never removed and never change project, and the ledger only grows. */
  lemma StepKeepsRows(s: State, approvals: Approvals, step: Step, k: Key)
    ensures s.ledger <= After(s, approvals, step).ledger
    ensures k in s.items ==>
              k in After(s, approvals, step).items && After(s, approvals, step).items[k].project == s.items[k].project
  {
    if step.Lifecycle? && Decide(s, approvals, step.request).Applied? {
      AppliedShape(s, approvals, step.request);
    } else {
      OutsideShape(s, approvals, step, k);
    }
  }

  lemma {:induction false} LedgerGrows(states: seq<State>, steps: seq<Step>, approvals: Approvals, i: nat, j: nat)
    requires Run(states, steps, approvals) && i <= j < |states|
    ensures states[i].ledger <= states[j].ledger
    ensures forall k :: k in states[i].items ==>
                k in states[j].items && states[j].items[k].project == states[i].items[k].project
  {
    if i < j {
      LedgerGrows(states, steps, approvals, i, j - 1);
      var s, step := states[j - 1], steps[j - 1];
      assert states[j] == After(s, approvals, step);
      forall k | k in s.items ensures k in states[j].items && states[j].items[k].project == s.items[k].project {
        StepKeepsRows(s, approvals, step, k);
      }
      StepKeepsRows(s, approvals, step, "");
    }
  }

  /**
   * Once a request has been applied, repeating it at any later point of the run changes nothing and answers with the
   * recorded event; only a refresh whose review date has meanwhile passed is turned down instead.
   */
  lemma RepeatChangesNothing(states: seq<State>, steps: seq<Step>, approvals: Approvals, i: nat, j: nat, r: Request,
                             now: int)
    requires Run(states, steps, approvals) && Initial(states[0], approvals) && i < j < |states|
    requires steps[i] == Lifecycle(r) && Decide(states[i], approvals, r).Applied?
    ensures AfterRequest(states[j], approvals, r.(now := now)) == states[j]
    ensures Decide(states[j], approvals, r.(now := now)) ==
              if r.action.Refresh? && r.action.review <= now then Failed(BadInput)
              else Replayed(Decide(states[i], approvals, r).event)
  {
    var at := AppliedIsFound(states, steps, approvals, i, j, r);
    LedgerGrows(states, steps, approvals, i, j);
    FoundIsReplayed(states[i], states[j], approvals, r, now, at);
  }

  lemma AppliedIsFound(states: seq<State>, steps: seq<Step>, approvals: Approvals, i: nat, j: nat, r: Request)
    returns (at: nat)
    requires Run(states, steps, approvals) && Initial(states[0], approvals) && i < j < |states|
    requires steps[i] == Lifecycle(r) && Decide(states[i], approvals, r).Applied?
    ensures at < |states[j].ledger| && states[j].ledger[at] == Decide(states[i], approvals, r).event
    ensures FindIdem(states[j].ledger, IdemText(r.action, r.target, r.approval)) == Some(at)
  {
    var s, e := states[i], Decide(states[i], approvals, r).event;
    assert states[i + 1] == After(s, approvals, steps[i]);
    AppliedShape(s, approvals, r);
    LedgerGrows(states, steps, approvals, i + 1, j);
    RunKeeps(states, steps, approvals, j);
    at := |s.ledger|;
    PrefixHolds(s.ledger + [e], states[j].ledger, at);
    FoundAt(states[j].ledger, at);
  }

  lemma PrefixHolds(a: seq<Event>, b: seq<Event>, i: nat)
    requires a <= b && i < |a|
    ensures i < |b| && b[i] == a[i]
  {
  }

  lemma FoundAt(ledger: seq<Event>, at: nat)
    requires at < |ledger| && forall i, j :: 0 <= i < j < |ledger| ==> ledger[i].idem != ledger[j].idem
    ensures FindIdem(ledger, ledger[at].idem) == Some(at)
  {
    var idem := ledger[at].idem;
    var found := FindIdem(ledger, idem);
    assert exists i :: 0 <= i < |ledger| && ledger[i].idem == idem;
    SameIdem(ledger, at, found.value);
  }

  lemma SameIdem(ledger: seq<Event>, i: nat, j: nat)
    requires i < |ledger| && j < |ledger| && ledger[i].idem == ledger[j].idem
    requires forall i, j :: 0 <= i < j < |ledger| ==> ledger[i].idem != ledger[j].idem
    ensures i == j
  {
    assert i <= j;
  }

  /** The approval and the rows that let a request pass once let it pass again. */
  lemma AccessStays(a: map<Key, Item>, b: map<Key, Item>, approvals: Approvals, r: Request, now: int)
    requires InputError(r).None? && AccessError(a, approvals, r).None?
    requires forall k :: k in a ==> k in b && b[k].project == a[k].project
    ensures InputError(r.(now := now)) == if r.action.Refresh? && r.action.review <= now then Some(BadInput) else None
    ensures InputError(r.(now := now)).None? ==> AccessError(b, approvals, r.(now := now)).None?
  {
  }

  lemma FoundIsReplayed(a: State, b: State, approvals: Approvals, r: Request, now: int, at: nat)
    requires Decide(a, approvals, r).Applied? && at < |b.ledger| && b.ledger[at] == Decide(a, approvals, r).event
    requires forall k :: k in a.items ==> k in b.items && b.items[k].project == a.items[k].project
    requires FindIdem(b.ledger, IdemText(r.action, r.target, r.approval)) == Some(at)
    ensures Decide(b, approvals, r.(now := now)) ==
              if r.action.Refresh? && r.action.review <= now then Failed(BadInput)
                else Replayed(Decide(a, approvals, r).event)
  {
    AccessStays(a.items, b.items, approvals, r, now);
  }
}
