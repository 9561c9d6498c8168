/** check_alignment_plan: a plan is accepted exactly when it meets the contract written out in PlanOk. */
module PlanContract {
  import opened Walks
  import opened Json
  import opened AlignmentPlan
  import Text

  const CONSTITUTION_VERSION := "1.0"
  const PLAN_KEYS := {"version", "constitution_version", "audit_digest", "target_profiles", "non_goals", "tranches",
                      "exceptions"}
  const TRANCHE_KEYS := {"key", "title", "addresses", "depends_on", "scope", "target_boundary",
                         "compatibility_strategy",
                         "rollback", "acceptance_criteria", "non_goals"}
  const EXCEPTION_KEYS := {"finding_id", "disposition", "rationale", "owner", "revisit_trigger"}
  const PROFILES := {"minimal", "frontend-web", "full-stack-web", "python-service", "data-analytics", "pipeline-jobs",
                     "cli-library"}

  /** The audit is the repository's own output, so its fields are typed. */
  datatype Finding = Finding(findingId: string, material: bool)
  datatype Audit = Audit(constitutionVersion: string, digest: string, profiles: seq<string>, findings: seq<Finding>)

  datatype Error =
    | PlanFields | NotSerializable | Version | PlanConstitution | AuditConstitution | Digest | NonGoals
    | ProfilesMissing | ProfilesDuplicate | ProfileUnknown(name: string) | ProfilesUndetected
    | TranchesNotList | ExceptionsNotList
    | TrancheFields(index: nat) | TrancheKey(index: nat) | DuplicateKey(key: string)
    | TrancheText(index: nat, field: string)
    | TrancheList(index: nat, field: string) | DependsOnList(index: nat) | AddressedTwice(findingId: string)
    | SelfDependency(key: string) | UnknownDependency(key: string, dependency: string) | Cycle(walk: seq<string>)
    | ExceptionFields(index: nat) | ExceptionFinding(index: nat) | Disposition(index: nat)
    | ExceptionText(index: nat, field: string) | DeferredTwice(findingId: string)
    | UnknownFinding(findingId: string) | MaterialMissing(findingId: string) | MaterialTwice(findingId: string)

  /**
   * A report, the early answer for something that is no object, or an exception: the UnicodeEncodeError of a text that
   * cannot be encoded, the TypeError of an unhashable disposition.
   */
  datatype Outcome = NotAnObject | Raised | Report(errors: seq<Error>)

  // ---------------------------------------------------------------- the contract

  predicate TextValue(j: Json) {
    j.Str? && !Text.Blank(j.s)
  }

  predicate TextList(j: Json) {
    j.List? && j.items != [] && forall i :: 0 <= i < |j.items| ==> TextValue(j.items[i])
  }

  predicate PossiblyEmptyTextList(j: Json) {
    j.List? && forall i :: 0 <= i < |j.items| ==> TextValue(j.items[i])
  }

  function Texts(items: seq<Json>): seq<string>
    requires forall i :: 0 <= i < |items| ==> items[i].Str?
  {
    seq(|items|, i requires 0 <= i < |items| => items[i].s)
  }

  const TRANCHE_TEXTS := ["title", "target_boundary", "compatibility_strategy", "rollback"]
  const TRANCHE_LISTS := ["addresses", "scope", "acceptance_criteria", "non_goals"]
  const EXCEPTION_TEXTS := ["rationale", "owner", "revisit_trigger"]

  predicate TrancheOk(t: Json) {
    && t.Obj? && t.fields.Keys == TRANCHE_KEYS
    && TextValue(t.Get("key"))
    && (forall f :: f in TRANCHE_TEXTS ==> TextValue(t.Get(f)))
    && (forall f :: f in TRANCHE_LISTS ==> TextList(t.Get(f)))
    && PossiblyEmptyTextList(t.Get("depends_on"))
  }

  predicate ExceptionOk(x: Json) {
    && x.Obj? && x.fields.Keys == EXCEPTION_KEYS
    && TextValue(x.Get("finding_id"))
    && x.Get("disposition") in [Str("defer"), Str("exception")]
    && (forall f :: f in EXCEPTION_TEXTS ==> TextValue(x.Get(f)))
  }

  /** What the contract looks at in a well-formed tranche. */
  datatype Tranche = Tranche(key: string, addresses: seq<string>, dependsOn: seq<string>)

  function TrancheOf(t: Json): Tranche
    requires TrancheOk(t)
  {
    Tranche(t.Get("key").s, AddressesOf(t), Texts(t.Get("depends_on").items))
  }

  function AddressesOf(t: Json): seq<string>
    requires TrancheOk(t)
  {
    assert "addresses" in TRANCHE_LISTS;
    Texts(t.Get("addresses").items)
  }

  function TranchesOf(ts: seq<Json>): seq<Tranche>
    requires forall t :: t in ts ==> TrancheOk(t)
  {
    seq(|ts|, i requires 0 <= i < |ts| => TrancheOf(ts[i]))
  }

  function Keys(ts: seq<Tranche>): seq<string> { seq(|ts|, i requires 0 <= i < |ts| => ts[i].key) }

  function Addresses(ts: seq<Tranche>): seq<string> {
    if ts == [] then [] else Addresses(ts[..|ts| - 1]) + ts[|ts| - 1].addresses
  }

  function DependencyMap(ts: seq<Tranche>): Dependencies {
    if ts == [] then map[] else DependencyMap(ts[..|ts| - 1])[ts[|ts| - 1].key := ts[|ts| - 1].dependsOn]
  }

  /** A tranche depends only on other tranches of the plan. */
  predicate Known(key: string, dependencies: seq<string>, keys: seq<string>) {
    forall i :: 0 <= i < |dependencies| ==> dependencies[i] != key && dependencies[i] in keys
  }

  predicate DependenciesKnown(keys: seq<string>, deps: Dependencies) {
    forall k :: k in deps ==> Known(k, deps[k], keys)
  }

  /** No two tranches share a key, no finding is addressed twice, and the dependencies are known and can be ordered. */
  ghost predicate TranchesOk(ts: seq<Tranche>) {
    && Distinct(Keys(ts)) && Distinct(Addresses(ts))
    && DependenciesKnown(Keys(ts), DependencyMap(ts))
    && Orderable(DependencyEdges(DependencyMap(ts)), Keys(ts))
  }

  function FindingOf(x: Json): string
    requires ExceptionOk(x)
  {
    x.Get("finding_id").s
  }

  function Deferred(xs: seq<Json>): seq<string>
    requires forall x :: x in xs ==> ExceptionOk(x)
  {
    seq(|xs|, i requires 0 <= i < |xs| => FindingOf(xs[i]))
  }

  /** Every finding the plan names is known, and every material finding is dealt with in exactly one way. */
  ghost predicate FindingsOk(addressed: seq<string>, deferred: seq<string>, findings: seq<Finding>) {
    && (forall f :: f in addressed || f in deferred ==> exists i :: 0 <= i < |findings| && findings[i].findingId == f)
    && (forall i :: 0 <= i < |findings| && findings[i].material ==>
          ((findings[i].findingId in addressed) != (findings[i].findingId in deferred)))
  }

  predicate ProfilesOk(profiles: Json, detected: seq<string>) {
    && TextList(profiles)
    && Distinct(Texts(profiles.items))
    && (forall p :: p in Texts(profiles.items) ==> p in PROFILES)
    && (forall p :: p in detected && p != "" ==> p in Texts(profiles.items))
  }

  /** The fields of the plan itself; True == 1 holds in Python. */
  predicate HeaderOk(plan: Json, audit: Audit) {
    && plan.Obj? && plan.fields.Keys == PLAN_KEYS && Serializable(plan)
    && plan.Get("version") in [Num(1.0), Bool(true)]
    && plan.Get("constitution_version") == Str(CONSTITUTION_VERSION) &&
       audit.constitutionVersion == CONSTITUTION_VERSION
    && plan.Get("audit_digest") == Str(audit.digest)
    && TextList(plan.Get("non_goals"))
    && ProfilesOk(plan.Get("target_profiles"), audit.profiles)
    && plan.Get("tranches").List? && plan.Get("exceptions").List?
  }

  /** The whole contract of an alignment plan against the current audit. */
  ghost predicate PlanOk(plan: Json, audit: Audit) {
    && HeaderOk(plan, audit)
    && (forall t :: t in plan.Get("tranches").items ==> TrancheOk(t))
    && (forall x :: x in plan.Get("exceptions").items ==> ExceptionOk(x))
    && var ts, deferred := TranchesOf(plan.Get("tranches").items), Deferred(plan.Get("exceptions").items);
       && TranchesOk(ts) && Distinct(deferred)
       && FindingsOk(Addresses(ts), deferred, audit.findings)
  }

  // ---------------------------------------------------------------- what a valid plan gives

  lemma {:induction false} AddressesGrow(ts: seq<Tranche>, i: nat)
    requires i <= |ts|
    ensures Addresses(ts[..i]) <= Addresses(ts)
    decreases |ts|
  {
    if i < |ts| {
      AddressesGrow(ts[..|ts| - 1], i);
      assert ts[..|ts| - 1][..i] == ts[..i];
    } else {
      assert ts[..i] == ts;
    }
  }

  /** Where an address of the i-th tranche stands among all addresses: after those of the earlier tranches. */
  lemma AddressIndex(ts: seq<Tranche>, i: nat, f: string) returns (k: nat)
    requires i < |ts| && f in ts[i].addresses
    ensures |Addresses(ts[..i])| <= k < |Addresses(ts[..i + 1])| <= |Addresses(ts)| && Addresses(ts)[k] == f
  {
    var j :| 0 <= j < |ts[i].addresses| && ts[i].addresses[j] == f;
    assert ts[..i + 1][..i] == ts[..i];
    assert Addresses(ts[..i + 1]) == Addresses(ts[..i]) + ts[i].addresses;
    k := |Addresses(ts[..i])| + j;
    AddressesGrow(ts, i + 1);
  }

  /** The i-th tranche and everything it depends on carry numbers, and its own number is the largest of them. */
  ghost predicate RunsAfterItsDependencies(ts: seq<Tranche>, number: map<string, nat>, i: nat)
    requires i < |ts|
  {
    && ts[i].key in number
    && forall d :: d in ts[i].dependsOn ==> d in Keys(ts) && d in number && number[d] < number[ts[i].key]
  }

  ghost predicate InOrder(ts: seq<Tranche>, number: map<string, nat>) {
    forall i :: 0 <= i < |ts| ==> RunsAfterItsDependencies(ts, number, i)
  }

  lemma TranchesInOrder(ts: seq<Tranche>) returns (number: map<string, nat>)
    requires TranchesOk(ts)
    ensures InOrder(ts, number)
  {
    var e := DependencyEdges(DependencyMap(ts));
    number :| (forall k :: k in Keys(ts) ==> k in number) && Topological(e, number);
    forall i | 0 <= i < |ts| ensures RunsAfterItsDependencies(ts, number, i) {
      assert ts[i].key == Keys(ts)[i];
      DependencyMapAt(ts, i);
      forall d | d in ts[i].dependsOn ensures d in Keys(ts) && d in number && number[d] < number[ts[i].key] {
        assert (ts[i].key, d) in e;
      }
    }
  }

  lemma AddressedOnce(ts: seq<Tranche>, i: nat, j: nat, f: string)
    requires TranchesOk(ts) && i < j < |ts| && f in ts[i].addresses
    ensures f !in ts[j].addresses
  {
    var k := AddressIndex(ts, i, f);
    AddressesGrow(ts[..j], i + 1);
    assert ts[..j][..i + 1] == ts[..i + 1];
    if f in ts[j].addresses {
      var l := AddressIndex(ts, j, f);
    }
  }

  ghost predicate AddressedIn(ts: seq<Tranche>, f: string) {
    exists i :: 0 <= i < |ts| && f in ts[i].addresses
  }

  lemma {:induction false} AddressedBySome(ts: seq<Tranche>, f: string)
    ensures f in Addresses(ts) <==> AddressedIn(ts, f)
  {
    if ts != [] {
      var n := |ts| - 1;
      AddressedBySome(ts[..n], f);
      if AddressedIn(ts, f) {
        var i :| 0 <= i < |ts| && f in ts[i].addresses;
        assert i < n ==> f in ts[..n][i].addresses;
      }
    }
  }

  /**
   * An accepted plan can be carried out: its tranches have an order in which each comes after all it depends on, no
   * finding belongs to two tranches, and every material finding is either addressed by a tranche or deferred, not both.
   */
  lemma AcceptedPlanIsExecutable(plan: Json, audit: Audit, ts: seq<Tranche>, deferred: seq<string>)
    requires PlanOk(plan, audit)
    requires ts == TranchesOf(plan.Get("tranches").items) && deferred == Deferred(plan.Get("exceptions").items)
    ensures exists number :: InOrder(ts, number)
    ensures forall i, j, f :: 0 <= i < j < |ts| && f in ts[i].addresses ==> f !in ts[j].addresses
    ensures forall m :: m in audit.findings && m.material ==>
                (AddressedIn(ts, m.findingId) != (m.findingId in deferred))
  {
    var number := TranchesInOrder(ts);
    forall i, j, f | 0 <= i < j < |ts| && f in ts[i].addresses ensures f !in ts[j].addresses {
      AddressedOnce(ts, i, j, f);
    }
    forall m | m in audit.findings && m.material
      ensures AddressedIn(ts, m.findingId) != (m.findingId in deferred)
    {
      AddressedBySome(ts, m.findingId);
    }
  }

  /** With distinct keys, each tranche keeps its own dependencies in the map. */
  lemma {:induction false} DependencyMapAt(ts: seq<Tranche>, i: nat)
    requires i < |ts| && Distinct(Keys(ts))
    ensures ts[i].key in DependencyMap(ts) && DependencyMap(ts)[ts[i].key] == ts[i].dependsOn
    decreases |ts|
  {
    var n := |ts| - 1;
    if i < n {
      assert Keys(ts[..n]) == Keys(ts)[..n];
      DependencyMapAt(ts[..n], i);
      assert Keys(ts)[i] != Keys(ts)[n];
    }
  }
}
