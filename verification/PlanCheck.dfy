/** The loops of check_alignment_plan, proved to accept exactly the plans that meet the contract. */
module PlanCheck {
  import opened Walks
  import opened Json
  import opened AlignmentPlan
  import opened PlanContract

  // ---------------------------------------------------------------- tranches

  /** A row of tranches without a local defect: well formed, distinct keys, no finding addressed twice. */
  ghost predicate Readable(ts: seq<Json>) {
    && (forall t :: t in ts ==> TrancheOk(t))
    && Distinct(Keys(TranchesOf(ts))) && Distinct(Addresses(TranchesOf(ts)))
  }

  /** What the loop over the tranches has collected after a readable row of them. */
  ghost predicate Collected(ts: seq<Json>, keys: seq<string>, deps: Dependencies, addressed: map<string, string>)
    requires Readable(ts)
  {
    && keys == Keys(TranchesOf(ts)) && deps == DependencyMap(TranchesOf(ts))
    && (forall f :: f in addressed <==> f in Addresses(TranchesOf(ts)))
  }

  /** No key and no address of the tranche was collected before, and none is repeated inside it. */
  ghost predicate Fits(t: Tranche, keys: seq<string>, addressed: set<string>) {
    t.key !in keys && Distinct(t.addresses) && forall f :: f in t.addresses ==> f !in addressed
  }

  lemma DistinctConcat(a: seq<string>, b: seq<string>)
    ensures Distinct(a + b) <==> Distinct(a) && Distinct(b) && forall x :: x in b ==> x !in a
  {
    var s := a + b;
    if Distinct(s) {
      forall i, j | 0 <= i < j < |a| ensures a[i] != a[j] {
        assert s[i] != s[j];
      }
      forall i, j | 0 <= i < j < |b| ensures b[i] != b[j] {
        assert s[|a| + i] != s[|a| + j];
      }
      forall x | x in b ensures x !in a {
        var j :| 0 <= j < |b| && b[j] == x;
        forall i | 0 <= i < |a| ensures a[i] != x {
          assert s[i] != s[|a| + j];
        }
      }
    } else {
      var i, j :| 0 <= i < j < |s| && s[i] == s[j];
      assert i < |a| <= j ==> s[j] in b && s[i] in a;
      assert i >= |a| ==> b[i - |a|] == b[j - |a|];
    }
  }

  lemma ReadableStep(ts: seq<Json>, t: Json, addressed: set<string>)
    requires Readable(ts) && forall f :: f in addressed <==> f in Addresses(TranchesOf(ts))
    ensures Readable(ts + [t]) <==> TrancheOk(t) && Fits(TrancheOf(t), Keys(TranchesOf(ts)), addressed)
    ensures TrancheOk(t) ==>
              && TranchesOf(ts + [t]) == TranchesOf(ts) + [TrancheOf(t)]
              && Keys(TranchesOf(ts + [t])) == Keys(TranchesOf(ts)) + [TrancheOf(t).key]
              && Addresses(TranchesOf(ts + [t])) == Addresses(TranchesOf(ts)) + TrancheOf(t).addresses
              && DependencyMap(TranchesOf(ts + [t])) ==
                 DependencyMap(TranchesOf(ts))[TrancheOf(t).key := TrancheOf(t).dependsOn]
  {
    assert t in ts + [t];
    if TrancheOk(t) {
      var row, tranche := TranchesOf(ts), TrancheOf(t);
      assert TranchesOf(ts + [t]) == row + [tranche];
      assert (row + [tranche])[..|row|] == row;
      assert Keys(row + [tranche]) == Keys(row) + [tranche.key];
      DistinctConcat(Keys(row), [tranche.key]);
      DistinctConcat(Addresses(row), tranche.addresses);
    }
  }

  lemma ReadablePrefix(ts: seq<Json>, t: Json)
    requires Readable(ts + [t])
    ensures Readable(ts)
  {
    forall u | u in ts ensures TrancheOk(u) {
      assert u in ts + [t];
    }
    assert t in ts + [t];
    var row, tranche := TranchesOf(ts), TrancheOf(t);
    assert TranchesOf(ts + [t]) == row + [tranche];
    assert (row + [tranche])[..|row|] == row;
    assert Keys(row + [tranche]) == Keys(row) + [tranche.key];
    DistinctConcat(Keys(row), [tranche.key]);
    DistinctConcat(Addresses(row), tranche.addresses);
  }

  /** for field in fields: if not _nonempty_text(...): errors.append(...) */
  method CheckTexts(obj: Json, fields: seq<string>, error: string -> Error) returns (errors: seq<Error>)
    requires obj.Obj?
    ensures errors == [] <==> forall f :: f in fields ==> TextValue(obj.Get(f))
  {
    errors := [];
    for i := 0 to |fields|
      invariant errors == [] <==> forall j :: 0 <= j < i ==> TextValue(obj.Get(fields[j]))
    {
      if !TextValue(obj.Get(fields[i])) {
        errors := errors + [error(fields[i])];
      }
    }
  }

  method CheckLists(obj: Json, fields: seq<string>, error: string -> Error) returns (errors: seq<Error>)
    requires obj.Obj?
    ensures errors == [] <==> forall f :: f in fields ==> TextList(obj.Get(f))
  {
    errors := [];
    for i := 0 to |fields|
      invariant errors == [] <==> forall j :: 0 <= j < i ==> TextList(obj.Get(fields[j]))
    {
      if !TextList(obj.Get(fields[i])) {
        errors := errors + [error(fields[i])];
      }
    }
  }

  /** str(value) is the identity on strings; what it prints for other values does not matter to the outcome. */
  ghost predicate PrintsText(pyStr: Json -> string) {
    forall s :: pyStr(Str(s)) == s
  }

  function Printed(items: seq<Json>, pyStr: Json -> string): seq<string> {
    seq(|items|, i requires 0 <= i < |items| => pyStr(items[i]))
  }

  /** The loop that records who addresses a finding, and complains when somebody already does. */
  method ReadAddresses(names: seq<string>, key: string, addressed0: map<string, string>)
    returns (errors: seq<Error>, addressed: map<string, string>)
    ensures errors == [] <==> Distinct(names) && forall f :: f in names ==> f !in addressed0
    ensures forall f :: f in addressed <==> f in addressed0 || f in names
  {
    errors, addressed := [], addressed0;
    for i := 0 to |names|
      invariant forall f :: f in addressed <==> f in addressed0 || f in names[..i]
      invariant errors == [] <==> Distinct(names[..i]) && forall f :: f in names[..i] ==> f !in addressed0
    {
      assert names[..i + 1] == names[..i] + [names[i]];
      DistinctConcat(names[..i], [names[i]]);
      if names[i] in addressed {
        errors := errors + [AddressedTwice(names[i])];
      } else {
        addressed := addressed[names[i] := key];
      }
    }
    assert names[..|names|] == names;
  }

  /** One turn of the loop over plan.tranches, from the field checks to the recorded addresses. */
  method ReadTranche(index: nat, t: Json, pyStr: Json -> string,
                     keys0: seq<string>, deps0: Dependencies, addressed0: map<string, string>)
    returns (errors: seq<Error>, keys: seq<string>, deps: Dependencies, addressed: map<string, string>)
    requires PrintsText(pyStr)
    ensures errors == [] <==> TrancheOk(t) && Fits(TrancheOf(t), keys0, addressed0.Keys)
    ensures errors == [] ==>
              && keys == keys0 + [TrancheOf(t).key] && deps == deps0[TrancheOf(t).key := TrancheOf(t).dependsOn]
              && forall f :: f in addressed <==> f in addressed0 || f in TrancheOf(t).addresses
  {
    errors, keys, deps, addressed := [], keys0, deps0, addressed0;
    if !t.Obj? || t.fields.Keys != TRANCHE_KEYS {
      errors := [TrancheFields(index)];
      return;
    }
    if !TextValue(t.Get("key")) {
      errors := [TrancheKey(index)];
      return;
    }
    var key := t.Get("key").s;
    if key in keys {
      errors := errors + [DuplicateKey(key)];
    }
    keys := keys + [key];
    var texts := CheckTexts(t, TRANCHE_TEXTS, f => TrancheText(index, f));
    var lists := CheckLists(t, TRANCHE_LISTS, f => TrancheList(index, f));
    errors := errors + texts + lists;
    var dependsOn: seq<Json> := [];
    if PossiblyEmptyTextList(t.Get("depends_on")) {
      dependsOn := t.Get("depends_on").items;
    } else {
      errors := errors + [DependsOnList(index)];
    }
    deps := deps[key := Texts(dependsOn)];
    var addresses := if t.Get("addresses").List? then t.Get("addresses").items else [];
    var twice;
    twice, addressed := ReadAddresses(Printed(addresses, pyStr), key, addressed);
    if TrancheOk(t) {
      assert "addresses" in TRANCHE_LISTS;
      assert Printed(addresses, pyStr) == TrancheOf(t).addresses;
    }
    errors := errors + twice;
  }

  method ReadTranches(tranches: seq<Json>, pyStr: Json -> string)
    returns (errors: seq<Error>, keys: seq<string>, deps: Dependencies, addressed: map<string, string>)
    requires PrintsText(pyStr)
    ensures errors == [] <==> Readable(tranches)
    ensures errors == [] ==> Collected(tranches, keys, deps, addressed)
  {
    errors, keys, deps, addressed := [], [], map[], map[];
    for i := 0 to |tranches|
      invariant errors == [] <==> Readable(tranches[..i])
      invariant errors == [] ==> Collected(tranches[..i], keys, deps, addressed)
    {
      assert tranches[..i + 1] == tranches[..i] + [tranches[i]];
      if errors == [] {
        ReadableStep(tranches[..i], tranches[i], addressed.Keys);
      } else if Readable(tranches[..i + 1]) {
        ReadablePrefix(tranches[..i], tranches[i]);
      }
      var found;
      found, keys, deps, addressed := ReadTranche(i, tranches[i], pyStr, keys, deps, addressed);
      errors := errors + found;
    }
    assert tranches[..|tranches|] == tranches;
  }

  // ---------------------------------------------------------------- dependencies between tranches

  method CheckKnown(key: string, dependencies: seq<string>, keys: seq<string>) returns (errors: seq<Error>)
    ensures errors == [] <==> Known(key, dependencies, keys)
  {
    errors := [];
    for i := 0 to |dependencies|
      invariant errors == [] <==> forall j :: 0 <= j < i ==> dependencies[j] != key && dependencies[j] in keys
    {
      if dependencies[i] == key {
        errors := errors + [SelfDependency(key)];
      } else if dependencies[i] !in keys {
        errors := errors + [UnknownDependency(key, dependencies[i])];
      }
    }
  }

  /** The loop over dependencies.items(), then the search for a cycle. */
  method CheckDependencies(keys: seq<string>, deps: Dependencies) returns (errors: seq<Error>)
    ensures errors == [] <==> DependenciesKnown(keys, deps) && Orderable(DependencyEdges(deps), keys)
  {
    errors := [];
    var left := deps.Keys;
    while left != {}
      invariant left <= deps.Keys
      invariant errors == [] <==> forall k :: k in deps && k !in left ==> Known(k, deps[k], keys)
    {
      var key :| key in left;
      var found := CheckKnown(key, deps[key], keys);
      errors, left := errors + found, left - {key};
    }
    var cycle := DependencyCycle(keys, deps);
    if cycle.Some? {
      errors := errors + [Cycle(cycle.value)];
    }
  }

  // ---------------------------------------------------------------- exceptions

  /** The membership test on the disposition raises TypeError for a list or an object. */
  predicate Unhashable(x: Json) {
    && x.Obj? && x.fields.Keys == EXCEPTION_KEYS && TextValue(x.Get("finding_id"))
    && (x.Get("disposition").List? || x.Get("disposition").Obj?)
  }

  ghost predicate ReadableExceptions(xs: seq<Json>) {
    (forall x :: x in xs ==> ExceptionOk(x)) && Distinct(Deferred(xs))
  }

  /** One turn of the loop over plan.exceptions, for an entry whose disposition can be looked up. */
  method ReadException(index: nat, x: Json, deferred0: set<string>) returns (errors: seq<Error>, deferred: set<string>)
    requires !Unhashable(x)
    ensures errors == [] <==> ExceptionOk(x) && FindingOf(x) !in deferred0
    ensures errors == [] ==> deferred == deferred0 + {FindingOf(x)}
  {
    errors, deferred := [], deferred0;
    if !x.Obj? || x.fields.Keys != EXCEPTION_KEYS {
      errors := [ExceptionFields(index)];
      return;
    }
    if !TextValue(x.Get("finding_id")) {
      errors := [ExceptionFinding(index)];
      return;
    }
    var findingId := x.Get("finding_id").s;
    if x.Get("disposition") !in [Str("defer"), Str("exception")] {
      errors := errors + [Disposition(index)];
    }
    var texts := CheckTexts(x, EXCEPTION_TEXTS, f => ExceptionText(index, f));
    errors := errors + texts;
    if findingId in deferred {
      errors := errors + [DeferredTwice(findingId)];
    }
    deferred := deferred + {findingId};
  }

  lemma ReadableExceptionsStep(xs: seq<Json>, x: Json)
    ensures ReadableExceptions(xs + [x]) <==> ReadableExceptions(xs) && ExceptionOk(x) && FindingOf(x) !in Deferred(xs)
    ensures ReadableExceptions(xs + [x]) ==> Deferred(xs + [x]) == Deferred(xs) + [FindingOf(x)]
  {
    assert (forall y :: y in xs + [x] ==> ExceptionOk(y)) <==>
           (forall y :: y in xs ==> ExceptionOk(y)) && ExceptionOk(x) by {
      assert x in xs + [x] && forall y :: y in xs ==> y in xs + [x];
    }
    if forall y :: y in xs + [x] ==> ExceptionOk(y) {
      assert Deferred(xs + [x]) == Deferred(xs) + [FindingOf(x)];
      DistinctConcat(Deferred(xs), [FindingOf(x)]);
    }
  }

  method ReadExceptions(xs: seq<Json>) returns (raised: bool, errors: seq<Error>, deferred: set<string>)
    ensures raised <==> exists x :: x in xs && Unhashable(x)
    ensures !raised ==> (errors == [] <==> ReadableExceptions(xs))
    ensures !raised && errors == [] ==> forall f :: f in deferred <==> f in Deferred(xs)
  {
    raised, errors, deferred := false, [], {};
    for i := 0 to |xs|
      invariant forall x :: x in xs[..i] ==> !Unhashable(x)
      invariant errors == [] <==> ReadableExceptions(xs[..i])
      invariant errors == [] ==> forall f :: f in deferred <==> f in Deferred(xs[..i])
    {
      if Unhashable(xs[i]) {
        return true, errors, deferred;
      }
      assert xs[..i + 1] == xs[..i] + [xs[i]];
      ReadableExceptionsStep(xs[..i], xs[i]);
      var found;
      found, deferred := ReadException(i, xs[i], deferred);
      errors := errors + found;
    }
    assert xs[..|xs|] == xs;
  }

  // ---------------------------------------------------------------- findings

  /** Only known findings are named, and each material one in exactly one of the two ways. */
  ghost predicate AllDealtWith(addressed: set<string>, deferred: set<string>, findings: seq<Finding>) {
    && (forall f :: f in addressed || f in deferred ==> exists i :: 0 <= i < |findings| && findings[i].findingId == f)
    && (forall i :: 0 <= i < |findings| && findings[i].material ==>
          ((findings[i].findingId in addressed) != (findings[i].findingId in deferred)))
  }

  method CheckFindings(addressed: set<string>, deferred: set<string>, findings: seq<Finding>)
    returns (errors: seq<Error>)
    ensures errors == [] <==> AllDealtWith(addressed, deferred, findings)
  {
    var known := set i | 0 <= i < |findings| :: findings[i].findingId;
    var material := set i | 0 <= i < |findings| && findings[i].material :: findings[i].findingId;
    errors := [];
    var named := addressed + deferred;
    while named != {}
      invariant named <= addressed + deferred
      invariant errors == [] <==> forall f :: f in addressed + deferred - named ==> f in known
    {
      var f :| f in named;
      if f !in known {
        errors := errors + [UnknownFinding(f)];
      }
      named := named - {f};
    }
    assert errors == [] <==> forall f :: f in addressed || f in deferred ==> f in known;
    var errorsOnNames, left := errors, material;
    while left != {}
      invariant left <= material
      invariant errors == [] <==>
                errorsOnNames == [] && forall f :: f in material - left ==> ((f in addressed) != (f in deferred))
    {
      var f :| f in left;
      if f !in addressed && f !in deferred {
        errors := errors + [MaterialMissing(f)];
      }
      if f in addressed && f in deferred {
        errors := errors + [MaterialTwice(f)];
      }
      left := left - {f};
    }
    assert forall i :: 0 <= i < |findings| && findings[i].material ==> findings[i].findingId in material;
  }

  // ---------------------------------------------------------------- the whole plan

  method CheckHeader(plan: Json, audit: Audit) returns (errors: seq<Error>)
    requires plan.Obj?
    ensures errors == [] <==> HeaderOk(plan, audit)
  {
    errors := [];
    if plan.fields.Keys != PLAN_KEYS { errors := errors + [PlanFields]; }
    if !Serializable(plan) { errors := errors + [NotSerializable]; }
    if plan.Get("version") !in [Num(1.0), Bool(true)] { errors := errors + [Version]; }
    if plan.Get("constitution_version") != Str(CONSTITUTION_VERSION) { errors := errors + [PlanConstitution]; }
    if audit.constitutionVersion != CONSTITUTION_VERSION { errors := errors + [AuditConstitution]; }
    if plan.Get("audit_digest") != Str(audit.digest) { errors := errors + [Digest]; }
    if !TextList(plan.Get("non_goals")) { errors := errors + [NonGoals]; }
    var profiles := CheckProfiles(plan.Get("target_profiles"), audit.profiles);
    errors := errors + profiles;
    if !plan.Get("tranches").List? { errors := errors + [TranchesNotList]; }
    if !plan.Get("exceptions").List? { errors := errors + [ExceptionsNotList]; }
  }

  method CheckProfiles(profiles: Json, detected: seq<string>) returns (errors: seq<Error>)
    ensures errors == [] <==> ProfilesOk(profiles, detected)
  {
    if !TextList(profiles) {
      return [ProfilesMissing];
    }
    var names := Texts(profiles.items);
    errors := CheckNames(names);
    if !Distinct(names) {
      errors := errors + [ProfilesDuplicate];
    }
    if exists p :: p in detected && p != "" && p !in names {
      errors := errors + [ProfilesUndetected];
    }
  }

  method CheckNames(names: seq<string>) returns (errors: seq<Error>)
    ensures errors == [] <==> forall p :: p in names ==> p in PROFILES
  {
    errors := [];
    for i := 0 to |names|
      invariant errors == [] <==> forall j :: 0 <= j < i ==> names[j] in PROFILES
    {
      if names[i] !in PROFILES {
        errors := errors + [ProfileUnknown(names[i])];
      }
    }
  }

  /** The canonical text of the plan exists but cannot be hashed, because it cannot be encoded. */
  predicate CannotDigest(plan: Json, encodes: string -> bool) { Serializable(plan) && !Encodable(plan, encodes) }

  /** Some exception carries a disposition that cannot be looked up in a set. */
  ghost predicate CannotHash(exceptions: Json) {
    exceptions.List? && exists x :: x in exceptions.items && Unhashable(x)
  }

  /** Everything after the digest. */
  method CheckParts(plan: Json, audit: Audit, pyStr: Json -> string) returns (r: Outcome)
    requires plan.Obj? && PrintsText(pyStr)
    ensures r == Report([]) <==> PlanOk(plan, audit)
    ensures r != NotAnObject
    ensures r == Raised <==> CannotHash(plan.Get("exceptions"))
  {
    var header := CheckHeader(plan, audit);
    var tranches := if plan.Get("tranches").List? then plan.Get("tranches").items else [];
    var exceptions := if plan.Get("exceptions").List? then plan.Get("exceptions").items else [];
    var errors, keys, deps, addressed := ReadTranches(tranches, pyStr);
    var order := CheckDependencies(keys, deps);
    var raised, deferrals, deferred := ReadExceptions(exceptions);
    if raised {
      return Raised;
    }
    var findings := CheckFindings(addressed.Keys, deferred, audit.findings);
    r := Report(header + errors + order + deferrals + findings);
    if header == [] && errors == [] && deferrals == [] {
      PartsMakeThePlan(plan, audit, keys, deps, addressed, deferred);
      assert r == Report([]) <==> order == [] && findings == [];
    } else {
      PlanHasParts(plan, audit);
    }
  }

  lemma PlanHasParts(plan: Json, audit: Audit)
    ensures PlanOk(plan, audit) ==>
              HeaderOk(plan, audit) && Readable(plan.Get("tranches").items) &&
                ReadableExceptions(plan.Get("exceptions").items)
  {
  }

  lemma PartsMakeThePlan(plan: Json, audit: Audit, keys: seq<string>, deps: Dependencies,
                         addressed: map<string, string>, deferred: set<string>)
    requires HeaderOk(plan, audit) && Readable(plan.Get("tranches").items)
    requires ReadableExceptions(plan.Get("exceptions").items)
    requires Collected(plan.Get("tranches").items, keys, deps, addressed)
    requires forall f :: f in deferred <==> f in Deferred(plan.Get("exceptions").items)
    ensures PlanOk(plan, audit) <==>
              DependenciesKnown(keys, deps) && Orderable(DependencyEdges(deps), keys)
              && AllDealtWith(addressed.Keys, deferred, audit.findings)
  {
    assert forall f :: f in Addresses(TranchesOf(plan.Get("tranches").items)) <==> f in addressed;
  }

  /**
   * Accepted exactly when the contract holds and the plan can be encoded; raises exactly when it cannot be although it
   * serializes, or when a disposition cannot be hashed.
   */
  method CheckAlignmentPlan(plan: Json, audit: Audit, pyStr: Json -> string, encodes: string -> bool)
    returns (r: Outcome)
    requires PrintsText(pyStr)
    ensures r == Report([]) <==> PlanOk(plan, audit) && Encodable(plan, encodes)
    ensures r == NotAnObject <==> !plan.Obj?
    ensures r == Raised <==> plan.Obj? && (CannotDigest(plan, encodes) || CannotHash(plan.Get("exceptions")))
  {
    if !plan.Obj? {
      return NotAnObject;
    }
    if CannotDigest(plan, encodes) {
      return Raised;
    }
    r := CheckParts(plan, audit, pyStr);
  }

  /** A plan with one complete exception whose disposition is a list: the check raises. */
  method ListAsDisposition(audit: Audit, pyStr: Json -> string) returns (r: Outcome)
    requires PrintsText(pyStr)
    ensures r == Raised
  {
    var text := Str("text");
    var x := Obj(map["finding_id" := text, "disposition" := List([]), "rationale" := text, "owner" := text,
                     "revisit_trigger" := text]);
    var plan := Obj(map["exceptions" := List([x])]);
    assert text.s[0] == 't' && TextValue(text);
    assert x.fields.Keys == EXCEPTION_KEYS && x.Get("finding_id") == text && x.Get("disposition") == List([]);
    assert Unhashable(x) && plan.Get("exceptions").items[0] == x;
    r := CheckAlignmentPlan(plan, audit, pyStr, (s: string) => true);
  }
}
