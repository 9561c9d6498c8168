/**
 * The locked promotion window of a governed handoff: one transaction that marks a task's validation as pending before
 * the primary workspace may change, and a repair that re-marks it when the transaction is rolled back.
 */
module Promotion {
  import opened Wrappers

  /** What vres.task_state.validation_status can hold. */
  datatype Validation = Pending | Passed | FailedStatus | NotRequired

  /** Ordinary is an Exception, Interrupt a BaseException that is none (KeyboardInterrupt, SystemExit). */
  datatype Raised = Ordinary | Interrupt

  datatype Call<+T> = Returns(value: T) | Raises(exc: Raised)

  datatype Code =
    | TaskInvalid | SessionRebound | StaleTaskState | StaleSourceSha | PrimaryDirty | PassedProtected
    | ApplyCheckFailed | ApplyFailed | ChangedPathsMismatch | PostconditionFailed | UnexpectedError
    | PendingRepairFailed

  datatype Exception = Handoff(code: Code) | Other(raised: Raised)

  datatype Outcome = Promoted | Failed(exception: Exception)

  datatype Verdict = Good | Bad(code: Code)

  type Files = map<string, string>

  /** The changed paths of git status: everything that differs from HEAD, both names of a rename included. */
  function Changed(head: Files, files: Files): set<string> {
    set p | p in head.Keys + files.Keys && !(p in head && p in files && head[p] == files[p])
  }

  /** A path has changed if it was added, removed, or has other contents; nothing has iff all files are the same. */
  lemma ChangedMeans(head: Files, files: Files, p: string)
    ensures p !in Changed(head, files) <==>
              (p in head && p in files && files[p] == head[p]) || (p !in head && p !in files)
    ensures Changed(head, files) == {} <==> files == head
  {
    if Changed(head, files) == {} {
      assert forall q :: q in head.Keys + files.Keys ==> q !in Changed(head, files);
      assert forall q :: q in head <==> q in files;
    }
  }

  /** How every call of one promotion turns out: the injected failures and the answers of the outside world. */
  datatype Faults = Faults(
    begin: Call<()>,
    taskRow: Call<bool>,
    sessionRow: Call<bool>,
    stateRow: Call<bool>,
    fingerprint: Call<bool>,
    sourceSha: Call<bool>,
    cleanStatus: Call<()>,
    writePending: Call<()>,
    touchTask: Call<()>,
    applyCheck: Call<bool>,
    apply: Call<bool>,
    filesAfterApply: Files,
    changedStatus: Call<()>,
    postconditions: Call<()>,
    commit: Call<()>,
    commitReachedDisk: bool,
    meanwhile: Validation -> Validation,
    repair: Call<()>,
    repairReachedDisk: bool)

  // ---------------------------------------------------------------- what decides how a promotion goes

  predicate Yes(c: Call<bool>) { c.Returns? && c.value }

  predicate No(c: Call<bool>) { c.Returns? && !c.value }

  predicate Throws<T>(c: Call<T>, x: Raised) { c.Raises? && c.exc == x }

  /** The task is active, its session still bound, and neither its state nor HEAD has moved since it was prepared. */
  predicate Fresh(f: Faults) {
    && Yes(f.taskRow) && Yes(f.sessionRow) && Yes(f.stateRow)
    && Yes(f.fingerprint) && Yes(f.sourceSha)
  }

  /** The pending write is reached and made: every call up to it returns, and every guard lets it through. */
  predicate Reaches(f: Faults, head: Files, primary: Files, validation: Validation) {
    && f.begin.Returns? && Fresh(f) && f.cleanStatus.Returns? && Changed(head, primary) == {} && validation != Passed
    && f.writePending.Returns? && f.touchTask.Returns?
  }

  /** What apply and its verification come to. */
  predicate ApplyRaises(f: Faults, head: Files, expected: set<string>) {
    || f.apply.Raises?
    || (f.apply.value
        && (|| f.changedStatus.Raises?
            || (Changed(head, f.filesAfterApply) == expected && f.postconditions.Raises?)))
  }

  predicate Verified(f: Faults, head: Files, expected: set<string>, holds: Files -> bool) {
    && Yes(f.apply) && f.changedStatus.Returns? && Changed(head, f.filesAfterApply) == expected
    && f.postconditions.Returns? && holds(f.filesAfterApply)
  }

  /** A call after the pending write, but before the end of the block, raises. */
  predicate BlockRaises(f: Faults, head: Files, expected: set<string>) {
    f.applyCheck.Raises? || (f.applyCheck.value && ApplyRaises(f, head, expected))
  }

  /** The transaction that made the pending write ends with an exception: in the block, or at its commit. */
  predicate WindowRaises(f: Faults, head: Files, expected: set<string>) {
    BlockRaises(f, head, expected) || f.commit.Raises?
  }

  /** The promotion succeeds. */
  predicate Promotes(f: Faults, head: Files, primary: Files, expected: set<string>, holds: Files -> bool,
                     validation: Validation) {
    && Reaches(f, head, primary, validation) && !WindowRaises(f, head, expected)
    && Yes(f.applyCheck) && Verified(f, head, expected, holds)
  }

  /** What a failed transaction leaves in the row: a commit can reach the disk and still raise. */
  function LeftByWindow(f: Faults, head: Files, expected: set<string>, validation: Validation): Validation {
    if !BlockRaises(f, head, expected) && f.commitReachedDisk then Pending else validation
  }

  /** What the repair finds: others may write the row once the rollback has released its locks. */
  function FoundByRepair(f: Faults, head: Files, expected: set<string>, validation: Validation): Validation {
    f.meanwhile(LeftByWindow(f, head, expected, validation))
  }

  /** The repair is written: the row it finds is not passed, and its commit reaches the disk. */
  predicate Repairs(f: Faults, found: Validation) { found != Passed && (f.repair.Returns? || f.repairReachedDisk) }

  /**
   * What a failed transaction leaves in the row: pending only if every call up to the commit returned and the commit
   * reached the disk before it raised. The repair then writes pending unless the row it finds is passed, and unless it
   * raises without having reached the disk.
   */
  lemma RowMeans(f: Faults, head: Files, expected: set<string>, validation: Validation, found: Validation)
    ensures var applied := Yes(f.applyCheck) && Yes(f.apply);
            var raised := || f.applyCheck.Raises? || (Yes(f.applyCheck) && f.apply.Raises?)
                          || (applied && f.changedStatus.Raises?)
                          || (applied && f.changedStatus.Returns? && Changed(head, f.filesAfterApply) == expected
                              && f.postconditions.Raises?);
            && (LeftByWindow(f, head, expected, validation).Pending? <==>
                  validation.Pending? || (!raised && f.commitReachedDisk))
            && (!LeftByWindow(f, head, expected, validation).Pending? ==>
                  LeftByWindow(f, head, expected, validation) == validation)
            && FoundByRepair(f, head, expected, validation) == f.meanwhile(LeftByWindow(f, head, expected, validation))
    ensures Repairs(f, found) <==> !found.Passed? && (f.repair.Raises? ==> f.repairReachedDisk)
  {
  }

  // ---------------------------------------------------------------- what is answered

  /** A call that asks something; `code` is the refusal if the answer is no. */
  datatype Check = Check(call: Call<bool>, code: Code)
  {
    predicate Passes() { call.Returns? && call.value }

    function Says(): Exception { if call.Raises? then Other(call.exc) else Handoff(code) }
  }

  /** A call that asks nothing, and one whose result is compared with something. */
  function Done(c: Call<()>): Call<bool> { Compared(c, true) }

  function Compared(c: Call<()>, same: bool): Call<bool> { if c.Returns? then Returns(same) else Raises(c.exc) }

  /** Everything up to the pending write, in order. */
  function GuardChecks(f: Faults, head: Files, primary: Files, validation: Validation): seq<Check> {
    [Check(Done(f.begin), UnexpectedError), Check(f.taskRow, TaskInvalid), Check(f.sessionRow, SessionRebound),
     Check(f.stateRow, TaskInvalid), Check(f.fingerprint, StaleTaskState), Check(f.sourceSha, StaleSourceSha),
     Check(Compared(f.cleanStatus, Changed(head, primary) == {}), PrimaryDirty),
     Check(Returns(validation != Passed), PassedProtected), Check(Done(f.writePending), UnexpectedError),
     Check(Done(f.touchTask), UnexpectedError)]
  }

  /** Everything after it, in order, but the commit. */
  function ApplyChecks(f: Faults, head: Files, expected: set<string>, holds: Files -> bool): seq<Check> {
    [Check(f.applyCheck, ApplyCheckFailed), Check(f.apply, ApplyFailed),
     Check(Compared(f.changedStatus, Changed(head, f.filesAfterApply) == expected), ChangedPathsMismatch),
     Check(Compared(f.postconditions, holds(f.filesAfterApply)), PostconditionFailed)]
  }

  /** What the first check from the i-th on says that does not pass. */
  function FirstNo(checks: seq<Check>, i: nat): Option<Exception>
    requires i <= |checks|
    decreases |checks| - i
  {
    if i == |checks| then None
    else if !checks[i].Passes() then Some(checks[i].Says())
    else FirstNo(checks, i + 1)
  }

  lemma NextCheck(checks: seq<Check>, i: nat)
    requires i < |checks|
    ensures FirstNo(checks, i) == if checks[i].Passes() then FirstNo(checks, i + 1) else Some(checks[i].Says())
    ensures i + 1 == |checks| ==> FirstNo(checks, i + 1) == None
  {
  }

  /** The i-th check is the first that does not pass. */
  predicate StopsAt(checks: seq<Check>, i: int) {
    0 <= i < |checks| && !checks[i].Passes() && forall j :: 0 <= j < i ==> checks[j].Passes()
  }

  lemma {:induction false} FirstNoFrom(checks: seq<Check>, i: nat)
    requires i <= |checks| && forall j :: 0 <= j < i ==> checks[j].Passes()
    ensures FirstNo(checks, i).None? <==> forall j :: 0 <= j < |checks| ==> checks[j].Passes()
    ensures forall k :: StopsAt(checks, k) ==> FirstNo(checks, i) == Some(checks[k].Says())
    ensures FirstNo(checks, i).Some? ==> exists k :: StopsAt(checks, k)
    decreases |checks| - i
  {
    if i < |checks| {
      if checks[i].Passes() {
        FirstNoFrom(checks, i + 1);
      } else {
        assert StopsAt(checks, i);
        forall k | StopsAt(checks, k) ensures k == i {
          assert k >= i && !checks[k].Passes();
        }
      }
    }
  }

  /** A refusal is answered exactly when its own check is the first that does not pass and says no. */
  lemma RefusedExactlyWhen(checks: seq<Check>, code: Code)
    ensures FirstNo(checks, 0) == Some(Handoff(code)) <==>
              exists i :: StopsAt(checks, i) && checks[i].code == code && checks[i].call.Returns?
    ensures forall exc :: FirstNo(checks, 0) == Some(Other(exc)) <==>
                          exists i :: StopsAt(checks, i) && Throws(checks[i].call, exc)
  {
    FirstNoFrom(checks, 0);
  }

  lemma AllGuardsPass(f: Faults, head: Files, primary: Files, validation: Validation)
    ensures FirstNo(GuardChecks(f, head, primary, validation), 0) == None <==> Reaches(f, head, primary, validation)
  {
    var checks := GuardChecks(f, head, primary, validation);
    FirstNoFrom(checks, 0);
    if Reaches(f, head, primary, validation) {
      forall j | 0 <= j < |checks| ensures checks[j].Passes() {
      }
    }
    if forall j :: 0 <= j < |checks| ==> checks[j].Passes() {
      assert checks[0].Passes() && checks[1].Passes() && checks[2].Passes() && checks[3].Passes() && checks[4].Passes();
      assert checks[5].Passes() && checks[6].Passes() && checks[7].Passes() && checks[8].Passes() && checks[9].Passes();
    }
  }

  /** The exception that ends the transaction of the window, in the block or at its commit. */
  function Thrown(f: Faults, head: Files, expected: set<string>, holds: Files -> bool): Option<Raised> {
    var no := FirstNo(ApplyChecks(f, head, expected, holds), 0);
    if no.Some? && no.value.Other? then Some(no.value.raised)
    else if f.commit.Raises? then Some(f.commit.exc)
    else None
  }

  /** What the repair of a rolled back pending write comes to, after the given exception. */
  function AfterRepair(f: Faults, found: Validation, thrown: Raised): Exception {
    if f.repair.Raises? then (if f.repair.exc.Interrupt? then Other(Interrupt) else Handoff(PendingRepairFailed))
    else if found == Passed then Handoff(PendingRepairFailed)
    else if thrown.Ordinary? then Handoff(UnexpectedError)
    else Other(Interrupt)
  }

  /** The answer of a promotion. */
  function Answer(f: Faults, head: Files, primary: Files, expected: set<string>, holds: Files -> bool,
                  validation: Validation): Outcome
  {
    var refused := FirstNo(GuardChecks(f, head, primary, validation), 0);
    var no := FirstNo(ApplyChecks(f, head, expected, holds), 0);
    var thrown := Thrown(f, head, expected, holds);
    if refused.Some? then Failed(refused.value)
    else if thrown.Some? then Failed(AfterRepair(f, FoundByRepair(f, head, expected, validation), thrown.value))
    else if no.Some? then Failed(no.value)
    else Promoted
  }

  /** The first call to say no or to raise, one after the other. */
  function GuardedBy(f: Faults, clean: bool, open: bool): Option<Exception> {
    if f.begin.Raises? then Some(Other(f.begin.exc))
    else if f.taskRow.Raises? then Some(Other(f.taskRow.exc))
    else if !f.taskRow.value then Some(Handoff(TaskInvalid))
    else if f.sessionRow.Raises? then Some(Other(f.sessionRow.exc))
    else if !f.sessionRow.value then Some(Handoff(SessionRebound))
    else if f.stateRow.Raises? then Some(Other(f.stateRow.exc))
    else if !f.stateRow.value then Some(Handoff(TaskInvalid))
    else if f.fingerprint.Raises? then Some(Other(f.fingerprint.exc))
    else if !f.fingerprint.value then Some(Handoff(StaleTaskState))
    else if f.sourceSha.Raises? then Some(Other(f.sourceSha.exc))
    else if !f.sourceSha.value then Some(Handoff(StaleSourceSha))
    else if f.cleanStatus.Raises? then Some(Other(f.cleanStatus.exc))
    else if !clean then Some(Handoff(PrimaryDirty))
    else if !open then Some(Handoff(PassedProtected))
    else if f.writePending.Raises? then Some(Other(f.writePending.exc))
    else if f.touchTask.Raises? then Some(Other(f.touchTask.exc))
    else None
  }

  lemma GuardedInOrder(f: Faults, head: Files, primary: Files, validation: Validation)
    ensures FirstNo(GuardChecks(f, head, primary, validation), 0) ==
              GuardedBy(f, Changed(head, primary) == {}, validation != Passed)
  {
    var checks := GuardChecks(f, head, primary, validation);
    NextCheck(checks, 0);
    NextCheck(checks, 1);
    NextCheck(checks, 2);
    NextCheck(checks, 3);
    NextCheck(checks, 4);
    NextCheck(checks, 5);
    NextCheck(checks, 6);
    NextCheck(checks, 7);
    NextCheck(checks, 8);
    NextCheck(checks, 9);
  }

  /** What refuses a promotion before its pending write, guard by guard. */
  lemma GuardAnswers(f: Faults, head: Files, primary: Files, validation: Validation)
    ensures var a := FirstNo(GuardChecks(f, head, primary, validation), 0);
            var active := f.begin.Returns? && Yes(f.taskRow);
            var bound := active && Yes(f.sessionRow);
            var stated := bound && Yes(f.stateRow);
            var unmoved := stated && Yes(f.fingerprint);
            var current := unmoved && Yes(f.sourceSha);
            var clean := current && f.cleanStatus.Returns? && Changed(head, primary) == {};
            && (a == Some(Handoff(TaskInvalid)) <==> (f.begin.Returns? && No(f.taskRow)) || (bound && No(f.stateRow)))
            && (a == Some(Handoff(SessionRebound)) <==> active && No(f.sessionRow))
            && (a == Some(Handoff(StaleTaskState)) <==> stated && No(f.fingerprint))
            && (a == Some(Handoff(StaleSourceSha)) <==> unmoved && No(f.sourceSha))
            && (a == Some(Handoff(PrimaryDirty)) <==>
                  current && f.cleanStatus.Returns? && Changed(head, primary) != {})
            && (a == Some(Handoff(PassedProtected)) <==> clean && validation == Passed)
            && (a == None <==> Reaches(f, head, primary, validation))
  {
    GuardedInOrder(f, head, primary, validation);
  }

  /** What ends it with an exception before its pending write, call by call. */
  lemma GuardRaises(f: Faults, head: Files, primary: Files, validation: Validation, x: Raised)
    ensures var a := FirstNo(GuardChecks(f, head, primary, validation), 0);
            var active := f.begin.Returns? && Yes(f.taskRow);
            var bound := active && Yes(f.sessionRow);
            var stated := bound && Yes(f.stateRow);
            var unmoved := stated && Yes(f.fingerprint);
            var current := unmoved && Yes(f.sourceSha);
            var open := current && f.cleanStatus.Returns? && Changed(head, primary) == {} && validation != Passed;
            && (a == Some(Other(x)) <==>
                  || Throws(f.begin, x) || (f.begin.Returns? && Throws(f.taskRow, x))
                  || (active && Throws(f.sessionRow, x)) || (bound && Throws(f.stateRow, x))
                  || (stated && Throws(f.fingerprint, x)) || (unmoved && Throws(f.sourceSha, x))
                  || (current && Throws(f.cleanStatus, x)) || (open && Throws(f.writePending, x))
                  || (open && f.writePending.Returns? && Throws(f.touchTask, x)))
            && (a.Some? && a.value.Handoff? ==>
                  a.value.code in
                    {TaskInvalid, SessionRebound, StaleTaskState, StaleSourceSha, PrimaryDirty, PassedProtected})
  {
    GuardedInOrder(f, head, primary, validation);
  }

  /** What the transaction of the window throws, call by call. */
  lemma ThrownExactlyWhen(f: Faults, head: Files, expected: set<string>, holds: Files -> bool, x: Raised)
    ensures Thrown(f, head, expected, holds) == Some(x) <==>
              || Throws(f.applyCheck, x)
              || (Yes(f.applyCheck) && Throws(f.apply, x))
              || (Yes(f.applyCheck) && Yes(f.apply) && Throws(f.changedStatus, x))
              || (Yes(f.applyCheck) && Yes(f.apply) && f.changedStatus.Returns?
                  && Changed(head, f.filesAfterApply) == expected && Throws(f.postconditions, x))
              || (!BlockRaises(f, head, expected) && Throws(f.commit, x))
    ensures Thrown(f, head, expected, holds) == None <==> !WindowRaises(f, head, expected)
  {
    var checks := ApplyChecks(f, head, expected, holds);
    NextCheck(checks, 0);
    NextCheck(checks, 1);
    NextCheck(checks, 2);
    NextCheck(checks, 3);
  }

  /** What else the window refuses, call by call. */
  lemma WindowAnswers(f: Faults, head: Files, expected: set<string>, holds: Files -> bool)
    ensures var a := FirstNo(ApplyChecks(f, head, expected, holds), 0);
            var applied := Yes(f.applyCheck) && Yes(f.apply);
            var matched := applied && f.changedStatus.Returns? && Changed(head, f.filesAfterApply) == expected;
            && (a == Some(Handoff(ApplyCheckFailed)) <==> No(f.applyCheck))
            && (a == Some(Handoff(ApplyFailed)) <==> Yes(f.applyCheck) && No(f.apply))
            && (a == Some(Handoff(ChangedPathsMismatch)) <==>
                  applied && f.changedStatus.Returns? && Changed(head, f.filesAfterApply) != expected)
            && (a == Some(Handoff(PostconditionFailed)) <==>
                  matched && f.postconditions.Returns? && !holds(f.filesAfterApply))
            && (a == None <==> Yes(f.applyCheck) && Verified(f, head, expected, holds))
            && (a.Some? && a.value.Handoff? ==>
                  a.value.code in {ApplyCheckFailed, ApplyFailed, ChangedPathsMismatch, PostconditionFailed})
  {
    var checks := ApplyChecks(f, head, expected, holds);
    NextCheck(checks, 0);
    NextCheck(checks, 1);
    NextCheck(checks, 2);
    NextCheck(checks, 3);
  }

  /**
   * The answer after the pending write: an unexpected error exactly when the window raised an ordinary exception and
   * the repair was made; a failed repair exactly when it raises one itself or finds a pass; an interrupt of the window
   * or of the repair comes out as itself.
   */
  lemma AnswerMeans(f: Faults, head: Files, primary: Files, expected: set<string>, holds: Files -> bool,
                    validation: Validation)
    requires Reaches(f, head, primary, validation)
    ensures var a := Answer(f, head, primary, expected, holds, validation);
            var thrown := Thrown(f, head, expected, holds);
            var found := FoundByRepair(f, head, expected, validation);
            && (a == Failed(Handoff(UnexpectedError)) <==>
                  thrown == Some(Ordinary) && f.repair.Returns? && found != Passed)
            && (a == Failed(Handoff(PendingRepairFailed)) <==>
                  thrown.Some? && (Throws(f.repair, Ordinary) || (f.repair.Returns? && found == Passed)))
            && (a == Failed(Other(Interrupt)) <==>
                  thrown.Some? && (|| Throws(f.repair, Interrupt)
                                   || (thrown == Some(Interrupt) && f.repair.Returns? && found != Passed)))
            && a != Failed(Other(Ordinary))
            && (thrown == None ==>
                  var no := FirstNo(ApplyChecks(f, head, expected, holds), 0);
                  a == if no == None then Promoted else Failed(no.value))
  {
    AllGuardsPass(f, head, primary, validation);
    WindowAnswers(f, head, expected, holds);
    assert f.repair.Raises? ==> f.repair.exc.Ordinary? || f.repair.exc.Interrupt?;
  }

  // ---------------------------------------------------------------- the code

  /** A task's row and the primary workspace, as everybody else can see them. */
  class Site {
    const head: Files
    var validation: Validation
    var primary: Files

    constructor (head: Files, validation: Validation, primary: Files)
      ensures this.head == head && this.validation == validation && this.primary == primary
    {
      this.head, this.validation, this.primary := head, validation, primary;
    }

    /** _apply_and_verify_primary: None when the primary now holds exactly the verified change. */
    method ApplyAndVerify(expected: set<string>, holds: Files -> bool, f: Faults) returns (r: Call<Verdict>)
      modifies this`primary
      ensures primary == f.filesAfterApply
      ensures FirstNo(ApplyChecks(f, head, expected, holds), 1) ==
                if r.Raises? then Some(Other(r.exc)) else if r.value.Bad? then Some(Handoff(r.value.code)) else None
      ensures r.Raises? <==> ApplyRaises(f, head, expected)
      ensures r == Returns(Good) <==> Verified(f, head, expected, holds)
      ensures r == Returns(Bad(ApplyFailed)) <==> No(f.apply)
      ensures r == Returns(Bad(ChangedPathsMismatch)) ==> Changed(head, primary) != expected
      ensures r == Returns(Bad(PostconditionFailed)) ==> Changed(head, primary) == expected && !holds(primary)
      ensures r.Returns? && r.value.Bad? ==> r.value.code in {ApplyFailed, ChangedPathsMismatch, PostconditionFailed}
    {
      ghost var checks := ApplyChecks(f, head, expected, holds);
      primary := f.filesAfterApply;
      if f.apply.Raises? { return Raises(f.apply.exc); }
      if !f.apply.value { return Returns(Bad(ApplyFailed)); }
      assert FirstNo(checks, 1) == FirstNo(checks, 2);
      if f.changedStatus.Raises? { return Raises(f.changedStatus.exc); }
      if Changed(head, primary) != expected { return Returns(Bad(ChangedPathsMismatch)); }
      assert FirstNo(checks, 2) == FirstNo(checks, 3);
      if f.postconditions.Raises? { return Raises(f.postconditions.exc); }
      assert FirstNo(checks, 4) == None;
      if !holds(primary) { return Returns(Bad(PostconditionFailed)); }
      return Returns(Good);
    }

    /** Everything up to the pending write; nothing is changed yet. The result says what stops it. */
    method Guards(f: Faults) returns (exit: Option<Exception>)
      ensures exit == FirstNo(GuardChecks(f, head, primary, validation), 0)
      ensures exit.None? <==> Reaches(f, head, primary, validation)
    {
      ghost var checks := GuardChecks(f, head, primary, validation);
      AllGuardsPass(f, head, primary, validation);
      FirstNoFrom(checks, 0);
      assert !checks[0].Passes() ==> StopsAt(checks, 0);
      if f.begin.Raises? { return Some(Other(f.begin.exc)); }
      assert !checks[1].Passes() ==> StopsAt(checks, 1);
      if f.taskRow.Raises? { return Some(Other(f.taskRow.exc)); }
      if !f.taskRow.value { return Some(Handoff(TaskInvalid)); }
      assert !checks[2].Passes() ==> StopsAt(checks, 2);
      if f.sessionRow.Raises? { return Some(Other(f.sessionRow.exc)); }
      if !f.sessionRow.value { return Some(Handoff(SessionRebound)); }
      assert !checks[3].Passes() ==> StopsAt(checks, 3);
      if f.stateRow.Raises? { return Some(Other(f.stateRow.exc)); }
      if !f.stateRow.value { return Some(Handoff(TaskInvalid)); }
      assert !checks[4].Passes() ==> StopsAt(checks, 4);
      if f.fingerprint.Raises? { return Some(Other(f.fingerprint.exc)); }
      if !f.fingerprint.value { return Some(Handoff(StaleTaskState)); }
      assert !checks[5].Passes() ==> StopsAt(checks, 5);
      if f.sourceSha.Raises? { return Some(Other(f.sourceSha.exc)); }
      if !f.sourceSha.value { return Some(Handoff(StaleSourceSha)); }
      assert !checks[6].Passes() ==> StopsAt(checks, 6);
      if f.cleanStatus.Raises? { return Some(Other(f.cleanStatus.exc)); }
      if Changed(head, primary) != {} { return Some(Handoff(PrimaryDirty)); }
      assert !checks[7].Passes() ==> StopsAt(checks, 7);
      if validation == Passed { return Some(Handoff(PassedProtected)); }
      assert !checks[8].Passes() ==> StopsAt(checks, 8);
      if f.writePending.Raises? { return Some(Other(f.writePending.exc)); }
      assert !checks[9].Passes() ==> StopsAt(checks, 9);
      if f.touchTask.Raises? { return Some(Other(f.touchTask.exc)); }
      return None;
    }

    /**
     * The body of the with block, up to and including the commit or the rollback that ends it. Nothing it writes to the
     * row is visible before the commit.
     */
    method LockedWindow(expected: set<string>, holds: Files -> bool, f: Faults)
      returns (exit: Option<Exception>, pendingWritten: bool, failure: Option<Code>)
      modifies this
      ensures pendingWritten <==> Reaches(f, head, old(primary), old(validation))
      ensures exit == if !pendingWritten then FirstNo(GuardChecks(f, head, old(primary), old(validation)), 0)
                      else if Thrown(f, head, expected, holds).Some?
                        then Some(Other(Thrown(f, head, expected, holds).value))
                      else None
      ensures pendingWritten && exit.None? ==>
                FirstNo(ApplyChecks(f, head, expected, holds), 0) ==
                  if failure.Some? then Some(Handoff(failure.value)) else None
      ensures exit.Some? <==> !pendingWritten || WindowRaises(f, head, expected)
      ensures primary == if pendingWritten && Yes(f.applyCheck) then f.filesAfterApply else old(primary)
      ensures !pendingWritten ==> validation == old(validation) && failure.None?
      ensures pendingWritten ==>
                validation == if exit.Some? then LeftByWindow(f, head, expected, old(validation)) else Pending
      ensures pendingWritten && exit.Some? ==> exit.value.Other?
      ensures pendingWritten && exit.None? ==>
                && (failure == Some(ApplyCheckFailed) <==> No(f.applyCheck))
                && (failure.None? <==> Yes(f.applyCheck) && Verified(f, head, expected, holds))
                && (failure.Some? ==>
                      failure.value in {ApplyCheckFailed, ApplyFailed, ChangedPathsMismatch, PostconditionFailed})
    {
      pendingWritten, failure := false, None;
      exit := Guards(f);
      if exit.Some? { return; }
      pendingWritten := true;
      if f.applyCheck.Raises? { exit := Some(Other(f.applyCheck.exc)); return; }
      if !f.applyCheck.value {
        failure := Some(ApplyCheckFailed);
      } else {
        var verdict := ApplyAndVerify(expected, holds, f);
        if verdict.Raises? { exit := Some(Other(verdict.exc)); return; }
        failure := if verdict.value.Bad? then Some(verdict.value.code) else None;
      }
      if f.commit.Raises? {
        if f.commitReachedDisk {
          validation := Pending;
        }
        exit := Some(Other(f.commit.exc));
        return;
      }
      validation := Pending;
    }

    /**
     * The fresh transaction of _force_pending_after_rollback; the row's trigger refuses to overwrite a pass. Like every
     * commit, its own can reach the disk and still raise.
     */
    method ForcePendingAfterRollback(f: Faults) returns (exit: Option<Exception>)
      modifies this`validation
      ensures exit.None? <==> f.repair.Returns? && old(validation) != Passed
      ensures validation == if Repairs(f, old(validation)) then Pending else old(validation)
      ensures exit.Some? ==>
                exit.value == if f.repair.Raises? && f.repair.exc.Interrupt? then Other(Interrupt)
                  else Handoff(PendingRepairFailed)
    {
      if f.repair.Raises? {
        if f.repairReachedDisk && validation != Passed {
          validation := Pending;
        }
        return if f.repair.exc == Interrupt then Some(Other(Interrupt)) else Some(Handoff(PendingRepairFailed));
      }
      if validation == Passed {
        return Some(Handoff(PendingRepairFailed));
      }
      validation := Pending;
      return None;
    }

    /**
     * _promote, for every choice of failing calls. Before the pending write nothing changes. From it on the row ends
     * pending, unless the transaction was rolled back and its repair could not be made: because its own calls raise, or
     * because somebody has recorded a pass since the rollback released its locks.
     */
    method Promote(expected: set<string>, holds: Files -> bool, f: Faults)
      returns (r: Outcome, pendingWritten: bool, ghost rolledBack: bool)
      modifies this
      ensures pendingWritten <==> Reaches(f, head, old(primary), old(validation))
      ensures rolledBack <==> pendingWritten && WindowRaises(f, head, expected)
      ensures r == Promoted <==> Promotes(f, head, old(primary), expected, holds, old(validation))
      ensures primary == if pendingWritten && Yes(f.applyCheck) then f.filesAfterApply else old(primary)
      ensures !pendingWritten ==> r.Failed? && validation == old(validation)
      ensures r == Promoted ==> Changed(head, primary) == expected && holds(primary)
      ensures pendingWritten ==>
                var found := FoundByRepair(f, head, expected, old(validation));
                && (validation == Pending <==>
                      !rolledBack || found == Pending || Repairs(f, found))
                && (validation == Passed <==> rolledBack && found == Passed)
                && (rolledBack && validation != Pending ==> validation == found)
      ensures r == Answer(f, head, old(primary), expected, holds, old(validation))
    {
      var exit, failure;
      AllGuardsPass(f, head, primary, validation);
      exit, pendingWritten, failure := LockedWindow(expected, holds, f);
      rolledBack := false;
      if exit.Some? {
        if !pendingWritten {
          r := Failed(exit.value);
          return;
        }
        rolledBack := true;
        validation := f.meanwhile(validation);
        var repair := ForcePendingAfterRollback(f);
        if repair.Some? {
          r := Failed(repair.value);
        } else if exit.value == Other(Ordinary) {
          r := Failed(Handoff(UnexpectedError));
        } else {
          r := Failed(exit.value);
        }
        return;
      }
      r := if failure.Some? then Failed(Handoff(failure.value)) else Promoted;
    }
  }

  // ---------------------------------------------------------------- the documented end state

  /**
   * The documented end state, always pending, is reached for certain if the repair can run and nobody else writes the
   * row between rollback and repair; in general exactly under the condition of Promote.
   */
  method PromoteUndisturbed(site: Site, expected: set<string>, holds: Files -> bool, f: Faults)
    returns (r: Outcome, pendingWritten: bool)
    requires f.repair.Returns? && forall v :: f.meanwhile(v) == v
    modifies site
    ensures pendingWritten <==> Reaches(f, site.head, old(site.primary), old(site.validation))
    ensures site.validation == if pendingWritten then Pending else old(site.validation)
    ensures r != Failed(Handoff(PendingRepairFailed))
  {
    AllGuardsPass(f, site.head, site.primary, site.validation);
    GuardRaises(f, site.head, site.primary, site.validation, Ordinary);
    if Reaches(f, site.head, site.primary, site.validation) {
      AnswerMeans(f, site.head, site.primary, expected, holds, site.validation);
    }
    ghost var rolledBack;
    r, pendingWritten, rolledBack := site.Promote(expected, holds, f);
  }

  /** Every call returns, but git apply --check is interrupted, and a pass is recorded before the repair. */
  const PASSED_MEANWHILE: Faults :=
    Faults(Returns(()), Returns(true), Returns(true), Returns(true), Returns(true), Returns(true), Returns(()),
           Returns(()), Returns(()), Raises(Ordinary), Returns(true), map[], Returns(()), Returns(()), Returns(()),
           false, (v: Validation) => Passed, Returns(()), false)

  /**
   * A promotion of a row that had failed validation ends with the row passed, and says that it could not repair that.
   */
  method PassRecordedMeanwhile() returns (r: Outcome, left: Validation, pendingWritten: bool)
    ensures pendingWritten && left == Passed && r == Failed(Handoff(PendingRepairFailed))
  {
    var site := new Site(map[], FailedStatus, map[]);
    ghost var rolledBack;
    r, pendingWritten, rolledBack := site.Promote({}, (files: Files) => true, PASSED_MEANWHILE);
    left := site.validation;
  }

  /** The same with a repair that raises: the row keeps the status it had, not pending. */
  method RepairRaises() returns (r: Outcome, left: Validation, pendingWritten: bool)
    ensures pendingWritten && left == FailedStatus && r == Failed(Handoff(PendingRepairFailed))
  {
    var site := new Site(map[], FailedStatus, map[]);
    var f := PASSED_MEANWHILE.(meanwhile := v => v, repair := Raises(Ordinary));
    ghost var rolledBack;
    r, pendingWritten, rolledBack := site.Promote({}, (files: Files) => true, f);
    left := site.validation;
  }
}
