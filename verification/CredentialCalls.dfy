/** How a request ends, told by which calls of the OS store raise and when. */
module CredentialCalls {
  import opened CredentialStores
  import opened CredentialBroker
  import opened CredentialEffects
  import opened Wrappers

  /** The n calls from a number on all return. */
  ghost predicate AllReturn(outcome: Outcomes, from: nat, n: nat) {
    forall k: nat :: from <= k < from + n ==> outcome(k).Succeeds?
  }

  /** The first of these n calls that raises. */
  ghost predicate FirstRaising(outcome: Outcomes, from: nat, n: nat, k: nat) {
    from <= k < from + n && !outcome(k).Succeeds? && AllReturn(outcome, from, k - from)
  }

  lemma {:induction false} AllSucceedMeans(outcome: Outcomes, from: nat, n: nat)
    ensures AllSucceed(outcome, from, n) <==> AllReturn(outcome, from, n)
    ensures AllSucceed(outcome, from, n) ==> Next(outcome, from, n) == from + n
    ensures forall k: nat :: FirstRaising(outcome, from, n, k) ==> Next(outcome, from, n) == k + 1
    ensures !AllSucceed(outcome, from, n) ==> exists k: nat :: FirstRaising(outcome, from, n, k)
    decreases n
  {
    if n > 0 {
      if outcome(from).Succeeds? {
        var later, fewer := from + 1, n - 1;
        AllSucceedMeans(outcome, later, fewer);
        forall k: nat | FirstRaising(outcome, from, n, k) ensures FirstRaising(outcome, later, fewer, k) {
          assert k != from && AllReturn(outcome, later, k - later);
        }
        if !AllSucceed(outcome, from, n) {
          var k: nat :| FirstRaising(outcome, later, fewer, k);
          assert AllReturn(outcome, from, k - from) && FirstRaising(outcome, from, n, k);
        }
      } else {
        assert FirstRaising(outcome, from, n, from);
      }
    }
  }

  /**
   * The end of a change of n entries. It is unreadable iff one of the n reads raises, and done iff nothing raises. Else
   * it is rolled back iff the n calls after the n writes, or after the first write that raises, all return.
   */
  lemma ChangeEndMeans(outcome: Outcomes, from: nat, n: nat, write: Write, first: nat)
    ensures var r, writes, restores := ChangeEnd(outcome, from, n, write), from + n, from + n + n;
            var read, written := AllReturn(outcome, from, n), AllReturn(outcome, writes, n);
            && (r.Unreadable? <==> !read)
            && (r.Done? <==> read && written && write.Written?)
            && (read && written && !write.Written? ==>
                  r == if AllReturn(outcome, restores, n) then RolledBack else Unconfirmed)
            && (read && FirstRaising(outcome, writes, n, first) ==>
                  r == if AllReturn(outcome, first + 1, n) then RolledBack else Unconfirmed)
  {
    AllSucceedMeans(outcome, from, n);
    AllSucceedMeans(outcome, from + n, n);
    AllSucceedMeans(outcome, Next(outcome, from + n, n), n);
    if FirstRaising(outcome, from + n, n, first) {
      assert !AllReturn(outcome, from + n, n);
    }
  }

  /** What a request is, once it needs no call to see it: refused for its authority or its input. */
  ghost predicate RefusedAtOnce(request: Request) { LacksAuthority(request) || WrongInput(request) }

  /** The captured values that a confirmation reads before anything else. */
  ghost function ToRead(s: Stores, request: Request): nat {
    if request.ConfirmPending? && RegistryOk(s.registry) then
      match CaptureOf(s, request.capture) case Some(row) => |row.fields| case None => 0
    else 0
  }

  /**
   * The end of a request: refused at once, whatever the stores are like; unreadable if the registry or a captured value
   * cannot be read; otherwise what its plan, its calls and the registry write come to.
   */
  lemma RequestEndMeans(outcome: Outcomes, from: nat, s: Stores, request: Request, now: string, readable: bool,
                        write: Write)
    ensures var r := RequestEnd(outcome, from, s, request, now, readable, write);
            && (LacksAuthority(request) ==> r == Refused(NoAuthority))
            && (!LacksAuthority(request) && WrongInput(request) ==>
                  r == Refused(if request.Save? then BadValues else NotCapturable))
            && (!RefusedAtOnce(request) ==>
                  if !readable || !AllReturn(outcome, from, ToRead(s, request)) then r.Unreadable?
                  else PlanComesTo(outcome, from + ToRead(s, request), Planned(s, request, now), write, r))
  {
    UnreadIs(request);
    ReadsAre(s, request);
    AllSucceedMeans(outcome, from, ToRead(s, request));
    AnswerComesTo(outcome, from, RefusedUnread(request), ToRead(s, request), Planned(s, request, now), readable, write);
  }

  ghost predicate PlanComesTo(outcome: Outcomes, from: nat, plan: Plan, write: Write, r: Result) {
    match plan
    case Refuse(reason) => r == Refused(reason)
    case Nothing => r.Unchanged?
    case Move(change, _) => r == ChangeEnd(outcome, from, |change|, write)
  }

  lemma AnswerComesTo(outcome: Outcomes, from: nat, refused: Option<Reason>, first: nat, plan: Plan, readable: bool,
                      write: Write)
    ensures var r := Answer(outcome, from, refused, first, plan, readable, write);
            && (refused.Some? ==> r == Refused(refused.value))
            && (refused.None? && (!readable || !AllSucceed(outcome, from, first)) ==> r.Unreadable?)
            && (refused.None? && readable && AllSucceed(outcome, from, first) ==>
                  PlanComesTo(outcome, from + first, plan, write, r))
  {
  }

  lemma ReadsAre(s: Stores, request: Request)
    ensures ReadsFirst(s, request) == ToRead(s, request)
  {
  }

  lemma UnreadIs(request: Request)
    ensures RefusedUnread(request) ==
              if LacksAuthority(request) then Some(NoAuthority)
              else if WrongInput(request) then Some(if request.Save? then BadValues else NotCapturable)
              else None
  {
    if request.Save? || request.CaptureDetection? {
      InputsAre(request.values);
    }
  }
}
