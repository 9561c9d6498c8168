/** The credential broker itself: snapshot, write, and roll back, with a failure possible at every call. */
module CredentialBroker {
  import opened CredentialStores
  import opened Wrappers

  /** One call of the OS credential store; a call that raises may or may not have taken effect. */
  datatype CallOutcome = Succeeds | RaisesBefore | RaisesAfter

  type Outcomes = nat -> CallOutcome

  // --------------------------------------------------------------- how a request must end, from how its calls turn out

  /** The n calls from the given one on all succeed. */
  predicate AllSucceed(outcome: Outcomes, from: nat, n: nat)
    decreases n
  {
    n == 0 || (outcome(from).Succeeds? && AllSucceed(outcome, from + 1, n - 1))
  }

  /** The call that comes after n calls, or after the first of them that raises. */
  function Next(outcome: Outcomes, from: nat, n: nat): nat
    decreases n
  {
    if n == 0 then from else if !outcome(from).Succeeds? then from + 1 else Next(outcome, from + 1, n - 1)
  }

  /**
   * A change of n entries: n reads, up to n writes, the registry write, and n restoring writes unless all went well.
   */
  function ChangeEnd(outcome: Outcomes, from: nat, n: nat, write: Write): Result {
    if !AllSucceed(outcome, from, n) then Unreadable
    else if AllSucceed(outcome, from + n, n) && write.Written? then Done
    else if AllSucceed(outcome, Next(outcome, from + n, n), n) then RolledBack
    else Unconfirmed
  }

  /** The refusals that come before the registry is read. */
  function RefusedUnread(request: Request): Option<Reason> {
    match request
    case Save(_, values, project, bind, authorized) =>
      if bind && (project.None? || !authorized) then Some(NoAuthority)
      else if !AllBounded(values) || !Consistent(values) || values == [] then Some(BadValues)
      else None
    case CaptureDetection(_, allowed, values, _, _, _) => if !allowed || values == [] then Some(NotCapturable) else None
    case ConfirmPending(_, _, project, bind, authorized) =>
      if !authorized || (bind && project.None?) then Some(NoAuthority) else None
    case _ => if !request.authorized then Some(NoAuthority) else None
  }

  /** The captured values a confirmation has to read before it can plan anything. */
  function ReadsFirst(before: Stores, request: Request): nat {
    if request.ConfirmPending? && RegistryOk(before.registry) && request.capture in before.registry.captures
    then |before.registry.captures[request.capture].fields|
    else 0
  }

  function PlanEnd(outcome: Outcomes, from: nat, plan: Plan, write: Write): Result {
    match plan
    case Refuse(reason) => Refused(reason)
    case Nothing => Unchanged
    case Move(change, _) => ChangeEnd(outcome, from, |change|, write)
  }

  /**
   * The one result a request has: decided by whether it is refused unread, by its plan, by the values it has to read
   * first, and by the calls that raise.
   */
  function Answer(outcome: Outcomes, from: nat, refused: Option<Reason>, first: nat, plan: Plan, readable: bool,
                  write: Write)
    : Result
  {
    if refused.Some? then Refused(refused.value)
    else if !readable || !AllSucceed(outcome, from, first) then Unreadable
    else PlanEnd(outcome, from + first, plan, write)
  }

  function RequestEnd(outcome: Outcomes, from: nat, before: Stores, request: Request, now: string, readable: bool,
                      write: Write)
    : Result
  {
    Answer(outcome, from, RefusedUnread(request), ReadsFirst(before, request), Planned(before, request, now), readable,
           write)
  }

  function WhenAllSucceed(plan: Plan): Result {
    match plan
    case Refuse(reason) => Refused(reason)
    case Nothing => Unchanged
    case Move(_, _) => Done
  }

  /** If no call raises, the plan is carried out. */
  lemma SucceedsWhenCallsDo(outcome: Outcomes, from: nat, before: Stores, request: Request, now: string)
    requires forall k: nat :: from <= k ==> outcome(k).Succeeds?
    ensures RequestEnd(outcome, from, before, request, now, true, Written) ==
              WhenAllSucceed(Planned(before, request, now))
  {
    RefusalsArePlanned(before, request, now);
    AnswerSucceeds(outcome, from, RefusedUnread(request), ReadsFirst(before, request), Planned(before, request, now));
  }

  lemma RefusalsArePlanned(before: Stores, request: Request, now: string)
    ensures RefusedUnread(request).Some? ==> Planned(before, request, now) == Refuse(RefusedUnread(request).value)
  {
  }

  lemma AnswerSucceeds(outcome: Outcomes, from: nat, refused: Option<Reason>, first: nat, plan: Plan)
    requires forall k: nat :: from <= k ==> outcome(k).Succeeds?
    requires refused.Some? ==> plan == Refuse(refused.value)
    ensures Answer(outcome, from, refused, first, plan, true, Written) ==
              WhenAllSucceed(plan)
  {
    LateCallsSucceed(outcome, from, from, first);
    if plan.Move? {
      var n := |plan.change|;
      LateCallsSucceed(outcome, from, from + first, n);
      LateCallsSucceed(outcome, from, from + first + n, n);
    }
  }

  lemma {:induction false} LateCallsSucceed(outcome: Outcomes, from: nat, a: nat, n: nat)
    requires from <= a && forall k: nat :: from <= k ==> outcome(k).Succeeds?
    ensures AllSucceed(outcome, a, n)
    decreases n
  {
    if n > 0 {
      LateCallsSucceed(outcome, from, a + 1, n - 1);
    }
  }

  /** If no call raises but the registry write does, everything written is taken back. */
  lemma RolledBackWhenOnlyTheWriteFails(outcome: Outcomes, from: nat, before: Stores, request: Request, now: string,
                                        write: Write)
    requires forall k: nat :: from <= k ==> outcome(k).Succeeds?
    requires Planned(before, request, now).Move? && !write.Written?
    ensures RequestEnd(outcome, from, before, request, now, true, write) == RolledBack
  {
    RefusalsArePlanned(before, request, now);
    AnswerRolledBack(outcome, from, ReadsFirst(before, request), Planned(before, request, now), write);
  }

  lemma AnswerRolledBack(outcome: Outcomes, from: nat, first: nat, plan: Plan, write: Write)
    requires forall k: nat :: from <= k ==> outcome(k).Succeeds?
    requires plan.Move? && !write.Written?
    ensures Answer(outcome, from, None, first, plan, true, write) == RolledBack
  {
    LateCallsSucceed(outcome, from, from, first);
    ChangeRolledBack(outcome, from, from + first, |plan.change|, write);
  }

  lemma ChangeRolledBack(outcome: Outcomes, from: nat, a: nat, n: nat, write: Write)
    requires from <= a && forall k: nat :: from <= k ==> outcome(k).Succeeds?
    requires !write.Written?
    ensures ChangeEnd(outcome, a, n, write) == RolledBack
  {
    LateCallsSucceed(outcome, from, a, n);
    NextIsLater(outcome, a + n, n);
    LateCallsSucceed(outcome, from, Next(outcome, a + n, n), n);
  }

  lemma {:induction false} NextIsLater(outcome: Outcomes, from: nat, n: nat)
    ensures from <= Next(outcome, from, n) <= from + n
    ensures AllSucceed(outcome, from, n) ==> Next(outcome, from, n) == from + n
    decreases n
  {
    if n > 0 && outcome(from).Succeeds? {
      NextIsLater(outcome, from + 1, n - 1);
    }
  }

  class Broker {
    /** How the n-th call of the OS store turns out. */
    const outcome: Outcomes
    var calls: nat
    var vault: Vault
    var registry: Registry

    constructor (outcome: Outcomes)
      ensures Now() == EMPTY && calls == 0 && this.outcome == outcome
    {
      this.outcome, calls := outcome, 0;
      vault, registry := EMPTY.vault, EMPTY.registry;
    }

    function Now(): Stores
      reads this
    {
      Stores(vault, registry)
    }

    // ---------------------------------------------------------------- single vault calls

    method Get(slot: Slot) returns (ok: bool, value: Option<string>)
      modifies this`calls
      ensures ok <==> outcome(old(calls)).Succeeds?
      ensures calls == old(calls) + 1
      ensures ok ==> value == Lookup(vault, slot)
    {
      ok := outcome(calls).Succeeds?;
      calls := calls + 1;
      value := Lookup(vault, slot);
    }

    /** store.set or store.delete, as _restore and _vault_change choose between them. */
    method PutOrDelete(slot: Slot, value: Option<string>) returns (ok: bool)
      modifies this`calls, this`vault
      ensures ok <==> outcome(old(calls)).Succeeds?
      ensures calls == old(calls) + 1
      ensures vault == CredentialStores.Put(old(vault), slot, value) || vault == old(vault)
      ensures ok ==> vault == CredentialStores.Put(old(vault), slot, value)
    {
      if !outcome(calls).RaisesBefore? {
        vault := CredentialStores.Put(vault, slot, value);
      }
      ok := outcome(calls).Succeeds?;
      calls := calls + 1;
    }

    // ---------------------------------------------------------------- whole changes

    method Snapshot(slots: set<Slot>) returns (ok: bool, seen: Change)
      modifies this`calls
      ensures ok <==> AllSucceed(outcome, old(calls), |slots|)
      ensures calls == Next(outcome, old(calls), |slots|)
      ensures ok ==> seen.Keys == slots && forall slot :: slot in slots ==> seen[slot] == Lookup(vault, slot)
    {
      seen := map[];
      var left := slots;
      while left != {}
        invariant seen.Keys == slots - left && left <= slots
        invariant AllSucceed(outcome, old(calls), |slots|) == AllSucceed(outcome, calls, |left|)
        invariant Next(outcome, old(calls), |slots|) == Next(outcome, calls, |left|)
        invariant forall slot :: slot in seen ==> seen[slot] == Lookup(vault, slot)
      {
        var slot :| slot in left;
        var value;
        ok, value := Get(slot);
        if !ok {
          return;
        }
        seen, left := seen[slot := value], left - {slot};
      }
      ok := true;
    }

    /** Writes a whole change, or stops at the first call that raises. */
    method WriteAll(change: Change) returns (ok: bool)
      modifies this`calls, this`vault
      ensures ok <==> AllSucceed(outcome, old(calls), |change|)
      ensures calls == Next(outcome, old(calls), |change|)
      ensures ok ==> vault == Apply(old(vault), change)
      ensures WrittenBut(old(vault), vault, change, change.Keys)
    {
      var left := change.Keys;
      assert |left| == |change|;
      while left != {}
        invariant left <= change.Keys
        invariant AllSucceed(outcome, old(calls), |change|) == AllSucceed(outcome, calls, |left|)
        invariant Next(outcome, old(calls), |change|) == Next(outcome, calls, |left|)
        invariant WrittenBut(old(vault), vault, change, left)
      {
        var slot :| slot in left;
        ghost var was := vault;
        ok := PutOrDelete(slot, change[slot]);
        OneWritten(old(vault), was, vault, change, left, slot);
        if !ok {
          return;
        }
        left := left - {slot};
      }
      ok := true;
      AllWritten(old(vault), vault, change);
    }

    /** _write_registry: the temporary file, its replacement of the registry, and the permission call after it. */
    method WriteRegistry(next: Registry, write: Write) returns (ok: bool)
      modifies this`registry
      ensures ok <==> write.Written?
      ensures registry == if write.FailsBeforeReplace? then old(registry) else next
    {
      if write.FailsBeforeReplace? {
        return false;
      }
      registry := next;
      return write.Written?;
    }

    /** _vault_change: writes the vault, then the registry, and restores the vault when anything raises. */
    method VaultChange(change: Change, next: Registry, write: Write) returns (r: Result)
      modifies this
      ensures r == ChangeEnd(outcome, old(calls), |change|, write)
      ensures Changed(old(Now()), change, next, write, Now(), r)
    {
      var n := |change|;
      assert |change.Keys| == n;
      NextIsLater(outcome, calls, n);
      var ok, seen := Snapshot(change.Keys);
      if !ok {
        return Unreadable;
      }
      ok := WriteAll(change);
      if ok {
        ok := WriteRegistry(next, write);
        if ok {
          return Done;
        }
      }
      assert seen.Keys == change.Keys && |seen| == |seen.Keys|;
      ghost var written := vault;
      ok := WriteAll(seen);
      OnlyTheseChanged(old(vault), written, vault, change, seen);
      if !ok {
        return Unconfirmed;
      }
      return RolledBack;
    }

    /** The last step of a request whose plan is the given change. */
    method CarryOut(change: Change, next: Registry, write: Write, ghost from: nat, ghost first: nat, ghost plan: Plan)
      returns (r: Result)
      requires plan == Move(change, next) && AllSucceed(outcome, from, first) && calls == from + first
      modifies this
      ensures PlanEnds(plan, old(Now()), write, Now(), r)
      ensures r == Answer(outcome, from, None, first, plan, true, write)
    {
      r := VaultChange(change, next, write);
      PlanChanged(plan, old(Now()), write, Now(), r, change, next);
    }

    // ---------------------------------------------------------------- requests

    method Save(identity: Identity, values: seq<(Field, string)>, project: Option<ProjectIdentity>, bind: bool,
                authorized: bool, now: string, readable: bool, write: Write)
      returns (r: Result)
      modifies this
      ensures Ends(old(Now()), Request.Save(identity, values, project, bind, authorized), now, write, Now(), r)
      ensures r ==
                RequestEnd(outcome, old(calls), old(Now()), Request.Save(identity, values, project, bind, authorized),
                           now, readable, write)
    {
      if bind && (project.None? || !authorized) {
        return Refused(NoAuthority);
      }
      var ok, normalized := CollectFields(values, true);
      if !ok || normalized == map[] {
        EmptyOnlyOfEmpty(values);
        return Refused(BadValues);
      }
      EmptyOnlyOfEmpty(values);
      if !readable {
        return Unreadable;
      }
      if !RegistryOk(registry) {
        return Refused(MalformedRegistry);
      }
      var next := Upserted(registry, identity, normalized.Keys, now);
      if bind {
        next := CredentialStores.Bound(next, identity, project.value, now);
      }
      ghost var plan, first :=
        Planned(Now(), Request.Save(identity, values, project, bind, authorized), now),
        ReadsFirst(Now(), Request.Save(identity, values, project, bind, authorized));
      var change := StoredSlots(identity, normalized);
      r := CarryOut(change, next, write, old(calls), first, plan);
    }

    method Bind(rid: Identity, project: ProjectIdentity, authorized: bool, now: string, readable: bool, write: Write)
      returns (r: Result)
      modifies this
      ensures Ends(old(Now()), Request.Bind(rid, project, authorized), now, write, Now(), r)
      ensures r ==
                RequestEnd(outcome, old(calls), old(Now()), Request.Bind(rid, project, authorized), now, readable,
                           write)
    {
      if !authorized {
        return Refused(NoAuthority);
      }
      if !readable {
        return Unreadable;
      }
      if !RegistryOk(registry) {
        return Refused(MalformedRegistry);
      }
      if rid !in registry.resources {
        return Refused(NotRegistered);
      }
      assert Apply(vault, map[]) == vault;
      var ok := WriteRegistry(CredentialStores.Bound(registry, rid, project, now), write);
      return if ok then Done else RolledBack;
    }

    method Unlink(rid: Identity, project: Project, authorized: bool, now: string, readable: bool, write: Write)
      returns (r: Result)
      modifies this
      ensures Ends(old(Now()), Request.Unlink(rid, project, authorized), now, write, Now(), r)
      ensures r ==
                RequestEnd(outcome, old(calls), old(Now()), Request.Unlink(rid, project, authorized), now, readable,
                           write)
    {
      if !authorized {
        return Refused(NoAuthority);
      }
      if !readable {
        return Unreadable;
      }
      if !RegistryOk(registry) {
        return Refused(MalformedRegistry);
      }
      if project !in registry.bindings || rid !in registry.bindings[project].resources {
        return Unchanged;
      }
      assert Apply(vault, map[]) == vault;
      var ok := WriteRegistry(Unlinked(registry, rid, project), write);
      return if ok then Done else RolledBack;
    }

    method DeleteResource(rid: Identity, authorized: bool, now: string, readable: bool, write: Write)
      returns (r: Result)
      modifies this
      ensures Ends(old(Now()), Request.DeleteResource(rid, authorized), now, write, Now(), r)
      ensures r ==
                RequestEnd(outcome, old(calls), old(Now()), Request.DeleteResource(rid, authorized), now, readable,
                           write)
    {
      if !authorized {
        return Refused(NoAuthority);
      }
      if !readable {
        return Unreadable;
      }
      if !RegistryOk(registry) {
        return Refused(MalformedRegistry);
      }
      if rid !in registry.resources {
        return Unchanged;
      }
      var bindings := UnlinkEverywhere(registry.bindings, rid);
      var next := registry.(resources := registry.resources - {rid}, bindings := bindings);
      ghost var plan, first :=
        Planned(Now(), Request.DeleteResource(rid, authorized), now),
        ReadsFirst(Now(), Request.DeleteResource(rid, authorized));
      var change := Cleared(ResourceSlots(rid, registry.resources[rid].fields));
      r := CarryOut(change, next, write, old(calls), first, plan);
    }

    method CaptureDetection(capture: CaptureId, allowed: bool, values: seq<(Field, string)>, typeHint: Option<string>,
                            originHint: Option<string>, project: Option<ProjectIdentity>, now: string, readable: bool,
                            write: Write)
      returns (r: Result)
      modifies this
      ensures Ends(old(Now()), Request.CaptureDetection(capture, allowed, values, typeHint, originHint, project), now,
                   write,
                   Now(), r)
      ensures r ==
                RequestEnd(outcome, old(calls), old(Now()),
                           Request.CaptureDetection(capture, allowed, values, typeHint, originHint, project), now,
                           readable, write)
    {
      if !allowed || values == [] {
        return Refused(NotCapturable);
      }
      if !readable {
        return Unreadable;
      }
      if !RegistryOk(registry) {
        return Refused(MalformedRegistry);
      }
      var ok, normalized := CollectFields(values, false);
      if !ok {
        return Refused(BadValues);
      }
      if typeHint.Some? != originHint.Some? {
        return Refused(BadHint);
      }
      var row := Capture(normalized.Keys, now, KeyOf(project), HintOf(typeHint, originHint));
      ghost var plan, first :=
        Planned(Now(), Request.CaptureDetection(capture, allowed, values, typeHint, originHint, project), now),
        ReadsFirst(Now(), Request.CaptureDetection(capture, allowed, values, typeHint, originHint, project));
      var change := CapturedSlots(capture, normalized);
      var next := registry.(captures := registry.captures[capture := row]);
      r := CarryOut(change, next, write, old(calls), first, plan);
    }

    method DiscardPending(capture: CaptureId, authorized: bool, now: string, readable: bool, write: Write)
      returns (r: Result)
      modifies this
      ensures Ends(old(Now()), Request.DiscardPending(capture, authorized), now, write, Now(), r)
      ensures r ==
                RequestEnd(outcome, old(calls), old(Now()), Request.DiscardPending(capture, authorized), now, readable,
                           write)
    {
      if !authorized {
        return Refused(NoAuthority);
      }
      if !readable {
        return Unreadable;
      }
      if !RegistryOk(registry) {
        return Refused(MalformedRegistry);
      }
      if capture !in registry.captures {
        return Unchanged;
      }
      var next := registry.(captures := registry.captures - {capture});
      ghost var plan, first :=
        Planned(Now(), Request.DiscardPending(capture, authorized), now),
        ReadsFirst(Now(), Request.DiscardPending(capture, authorized));
      var change := Cleared(PendingSlots(capture, registry.captures[capture].fields));
      r := CarryOut(change, next, write, old(calls), first, plan);
    }

    /** Reads the captured values one by one; a missing or empty one makes the whole capture incomplete. */
    method ReadCapture(capture: CaptureId, fields: set<Field>)
      returns (readable: bool, values: Option<map<Field, string>>)
      modifies this`calls
      ensures readable <==> AllSucceed(outcome, old(calls), |fields|)
      ensures calls == Next(outcome, old(calls), |fields|)
      ensures readable ==> values == CapturedValues(vault, capture, fields)
    {
      var found := map[];
      var complete := true;
      var left := fields;
      while left != {}
        invariant left <= fields
        invariant AllSucceed(outcome, old(calls), |fields|) == AllSucceed(outcome, calls, |left|)
        invariant Next(outcome, old(calls), |fields|) == Next(outcome, calls, |left|)
        invariant complete <==>
                  forall f :: f in fields - left ==> Pending(capture, f) in vault && vault[Pending(capture, f)] != ""
        invariant complete ==>
                  found.Keys == fields - left && forall f :: f in found ==> found[f] == vault[Pending(capture, f)]
      {
        var f :| f in left;
        var value;
        readable, value := Get(Pending(capture, f));
        if !readable {
          return false, None;
        }
        if value.None? || value.value == "" {
          complete := false;
        } else {
          found := found[f := value.value];
        }
        left := left - {f};
      }
      readable, values := true, if complete then Some(found) else None;
      if complete {
        assert CapturedValues(vault, capture, fields).Some?;
        assert found == CapturedValues(vault, capture, fields).value;
      }
    }

    method ConfirmPending(capture: CaptureId, identity: Identity, project: Option<ProjectIdentity>, bind: bool,
                          authorized: bool, now: string, readable: bool, write: Write)
      returns (r: Result)
      modifies this
      ensures Ends(old(Now()), Request.ConfirmPending(capture, identity, project, bind, authorized), now, write, Now(),
                   r)
      ensures r ==
                RequestEnd(outcome, old(calls), old(Now()),
                           Request.ConfirmPending(capture, identity, project, bind, authorized), now, readable, write)
    {
      if !authorized || (bind && project.None?) {
        return Refused(NoAuthority);
      }
      if !readable {
        return Unreadable;
      }
      if !RegistryOk(registry) {
        return Refused(MalformedRegistry);
      }
      if capture !in registry.captures {
        return Refused(NotFound);
      }
      var fields := registry.captures[capture].fields;
      NextIsLater(outcome, calls, |fields|);
      var ok, values := ReadCapture(capture, fields);
      if !ok {
        return Unreadable;
      }
      if values.None? {
        return Refused(Incomplete);
      }
      var next := Upserted(registry, identity, fields, now);
      if bind {
        next := CredentialStores.Bound(next, identity, project.value, now);
      }
      next := next.(captures := next.captures - {capture});
      ghost var plan, first :=
        Planned(Now(), Request.ConfirmPending(capture, identity, project, bind, authorized), now),
        ReadsFirst(Now(), Request.ConfirmPending(capture, identity, project, bind, authorized));
      var change := Moved(capture, identity, values.value);
      r := CarryOut(change, next, write, old(calls), first, plan);
    }
  }

  /** Every entry outside `left` holds what the change wants there, or what it held if the change leaves it alone. */
  ghost predicate WrittenBut(before: Vault, v: Vault, change: Change, left: set<Slot>) {
    forall slot :: slot !in left ==> Lookup(v, slot) == Held(before, change, slot)
  }

  lemma OneWritten(before: Vault, v: Vault, w: Vault, change: Change, left: set<Slot>, slot: Slot)
    requires slot in left && left <= change.Keys && WrittenBut(before, v, change, left)
    requires w == CredentialStores.Put(v, slot, change[slot]) || w == v
    ensures WrittenBut(before, w, change, left) && WrittenBut(before, w, change, change.Keys)
    ensures w == CredentialStores.Put(v, slot, change[slot]) ==> WrittenBut(before, w, change, left - {slot})
  {
  }

  lemma AllWritten(before: Vault, v: Vault, change: Change)
    requires WrittenBut(before, v, change, {})
    ensures v == Apply(before, change) && WrittenBut(before, v, change, change.Keys)
  {
    forall slot ensures Lookup(v, slot) == Lookup(Apply(before, change), slot) {
      InApply(before, change, slot);
    }
    SameEntries(v, Apply(before, change));
  }

  /**
   * Two changes of the same entries, the second to what they held before: nothing else changes, and done it is undone.
   */
  lemma OnlyTheseChanged(before: Vault, written: Vault, v: Vault, change: Change, seen: Change)
    requires WrittenBut(before, written, change, change.Keys) && WrittenBut(written, v, seen, seen.Keys)
    requires seen.Keys == change.Keys && forall slot :: slot in seen ==> seen[slot] == Lookup(before, slot)
    ensures forall slot :: slot !in change ==> Lookup(v, slot) == Lookup(before, slot)
    ensures v == Apply(written, seen) ==> v == before
  {
    if v == Apply(written, seen) {
      forall slot ensures Lookup(v, slot) == Lookup(before, slot) {
        InApply(written, seen, slot);
      }
      SameEntries(v, before);
    }
  }

  /** How _vault_change can end. */
  ghost predicate Changed(before: Stores, change: Change, next: Registry, write: Write, after: Stores, r: Result) {
    match r
    case Done => after == Stores(Apply(before.vault, change), next)
    case Unreadable => after == before
    case RolledBack =>
      && after.vault == before.vault
      && (after.registry == before.registry || (write.FailsAfterReplace? && after.registry == next))
    case Unconfirmed =>
      && (forall slot :: slot !in change ==> Lookup(after.vault, slot) == Lookup(before.vault, slot))
      && (after.registry == before.registry || (write.FailsAfterReplace? && after.registry == next))
    case _ => false
  }

  lemma PlanChanged(plan: Plan, before: Stores, write: Write, after: Stores, r: Result, change: Change, next: Registry)
    requires plan == Move(change, next) && Changed(before, change, next, write, after, r)
    ensures PlanEnds(plan, before, write, after, r)
  {
  }

  lemma SameEntries(a: Vault, b: Vault)
    requires forall slot :: Lookup(a, slot) == Lookup(b, slot)
    ensures a == b
  {
    forall slot ensures slot in a <==> slot in b {
      assert Lookup(a, slot) == Lookup(b, slot);
    }
    forall slot | slot in a ensures a[slot] == b[slot] {
      assert Lookup(a, slot) == Lookup(b, slot);
    }
  }

  lemma EmptyOnlyOfEmpty(values: seq<(Field, string)>)
    ensures AsMap(values) == map[] <==> values == []
  {
    if values != [] {
      assert values[|values| - 1].0 in AsMap(values);
    }
  }

  /** The normalization loop of save (bounded) and capture_detection: one value per field, or a refusal. */
  method CollectFields(values: seq<(Field, string)>, bounded: bool) returns (ok: bool, normalized: map<Field, string>)
    ensures ok <==> Consistent(values) && (bounded ==> AllBounded(values))
    ensures ok ==> normalized == AsMap(values)
  {
    normalized := map[];
    for i := 0 to |values|
      invariant Consistent(values[..i]) && (bounded ==> AllBounded(values[..i]))
      invariant normalized == AsMap(values[..i])
    {
      var (field, value) := values[i];
      if bounded && !BoundedText(value) {
        return false, normalized;
      }
      OneMore(values[..i], field, value);
      assert values[..i + 1] == values[..i] + [(field, value)];
      if field in normalized && normalized[field] != value {
        PrefixConsistent(values, i + 1);
        return false, normalized;
      }
      normalized := normalized[field := value];
    }
    ok := true;
    assert values[..|values|] == values;
  }

  lemma OneMore(values: seq<(Field, string)>, field: Field, value: string)
    requires Consistent(values)
    ensures AsMap(values + [(field, value)]) == AsMap(values)[field := value]
    ensures Consistent(values + [(field, value)]) <==> field !in AsMap(values) || AsMap(values)[field] == value
  {
    AsMapHolds(values);
    var more := values + [(field, value)];
    assert more[..|values|] == values;
    if field in AsMap(values) {
      var j :| 0 <= j < |values| && values[j] == (field, AsMap(values)[field]);
      assert more[j] == values[j] && more[|values|] == (field, value);
    }
  }

  lemma PrefixConsistent(values: seq<(Field, string)>, n: nat)
    requires n <= |values|
    ensures Consistent(values) ==> Consistent(values[..n])
  {
  }

  /** The loop of delete_resource over the project rows. */
  method UnlinkEverywhere(bindings: map<Project, Binding>, rid: Identity) returns (out: map<Project, Binding>)
    ensures out == map p | p in bindings && bindings[p].resources - {rid} != map[] ::
                     bindings[p].(resources := bindings[p].resources - {rid})
  {
    out := map[];
    var left := bindings.Keys;
    while left != {}
      invariant left <= bindings.Keys
      invariant out == map p | p in bindings.Keys - left && bindings[p].resources - {rid} != map[] ::
                         bindings[p].(resources := bindings[p].resources - {rid})
    {
      var p :| p in left;
      var linked := bindings[p].resources - {rid};
      if linked != map[] {
        out := out[p := bindings[p].(resources := linked)];
      }
      left := left - {p};
    }
  }
}
