/** The contract of a plan once more: field by field, and by the places at which findings and keys stand. */
module PlanFields {
  import opened Walks
  import opened Json
  import opened AlignmentPlan
  import opened PlanContract
  import opened Text

  // ---------------------------------------------------------------- fields

  /** A string in which something is not white space. */
  predicate Says(j: Json) { j.Str? && exists i :: 0 <= i < |j.s| && !IsSpace(j.s[i]) }

  predicate SaysEach(j: Json) { j.List? && forall i :: 0 <= i < |j.items| ==> Says(j.items[i]) }

  ghost predicate HasExactly(j: Json, keys: seq<string>) { j.Obj? && forall k :: k in j.fields <==> k in keys }

  predicate SaysAt(j: Json, key: string) { j.Obj? && key in j.fields && Says(j.fields[key]) }

  predicate ListsAt(j: Json, key: string, least: nat) {
    j.Obj? && key in j.fields && SaysEach(j.fields[key]) && |j.fields[key].items| >= least
  }

  lemma SaysIs(j: Json)
    ensures TextValue(j) <==> Says(j)
    ensures PossiblyEmptyTextList(j) <==> SaysEach(j)
    ensures TextList(j) <==> SaysEach(j) && |j.items| >= 1
  {
  }

  /** A tranche has these ten fields, all texts say something, and only the list of dependencies may be empty. */
  ghost predicate TrancheFields(t: Json) {
    && HasExactly(t, ["key", "title", "addresses", "depends_on", "scope", "target_boundary", "compatibility_strategy",
                      "rollback", "acceptance_criteria", "non_goals"])
    && SaysAt(t, "key") && SaysAt(t, "title") && SaysAt(t, "target_boundary")
    && SaysAt(t, "compatibility_strategy") && SaysAt(t, "rollback")
    && ListsAt(t, "addresses", 1) && ListsAt(t, "scope", 1) && ListsAt(t, "acceptance_criteria", 1)
    && ListsAt(t, "non_goals", 1) && ListsAt(t, "depends_on", 0)
  }

  lemma TrancheMeans(t: Json)
    ensures TrancheOk(t) <==> TrancheFields(t)
  {
    if t.Obj? {
      var keys := ["key", "title", "addresses", "depends_on", "scope", "target_boundary", "compatibility_strategy",
                   "rollback", "acceptance_criteria", "non_goals"];
      assert forall k :: k in TRANCHE_KEYS <==> k in keys;
      assert t.fields.Keys == TRANCHE_KEYS <==> HasExactly(t, keys);
      if HasExactly(t, keys) {
        assert TRANCHE_TEXTS == ["title", "target_boundary", "compatibility_strategy", "rollback"];
        TrancheTexts(t);
        TrancheLists(t);
      }
    }
  }

  lemma TrancheTexts(t: Json)
    requires t.Obj? && t.fields.Keys == TRANCHE_KEYS
    ensures (TextValue(t.Get("key")) && forall f :: f in TRANCHE_TEXTS ==> TextValue(t.Get(f))) <==>
              && SaysAt(t, "key") && SaysAt(t, "title") && SaysAt(t, "target_boundary")
              && SaysAt(t, "compatibility_strategy") && SaysAt(t, "rollback")
  {
    assert "title" in TRANCHE_TEXTS && "target_boundary" in TRANCHE_TEXTS;
    assert "compatibility_strategy" in TRANCHE_TEXTS && "rollback" in TRANCHE_TEXTS;
  }

  lemma TrancheLists(t: Json)
    requires t.Obj? && t.fields.Keys == TRANCHE_KEYS
    ensures (PossiblyEmptyTextList(t.Get("depends_on")) && forall f :: f in TRANCHE_LISTS ==> TextList(t.Get(f))) <==>
              && ListsAt(t, "addresses", 1) && ListsAt(t, "scope", 1) && ListsAt(t, "acceptance_criteria", 1)
              && ListsAt(t, "non_goals", 1) && ListsAt(t, "depends_on", 0)
  {
    assert "addresses" in TRANCHE_LISTS && "scope" in TRANCHE_LISTS;
    assert "acceptance_criteria" in TRANCHE_LISTS && "non_goals" in TRANCHE_LISTS;
    SaysIs(t.fields["addresses"]);
    SaysIs(t.fields["scope"]);
    SaysIs(t.fields["acceptance_criteria"]);
    SaysIs(t.fields["non_goals"]);
    SaysIs(t.fields["depends_on"]);
  }

  /** An exception names a finding, a disposition and three reasons. */
  ghost predicate ExceptionFields(x: Json) {
    && HasExactly(x, ["finding_id", "disposition", "rationale", "owner", "revisit_trigger"])
    && SaysAt(x, "finding_id") && SaysAt(x, "rationale") && SaysAt(x, "owner") && SaysAt(x, "revisit_trigger")
    && (x.fields["disposition"] == Str("defer") || x.fields["disposition"] == Str("exception"))
  }

  lemma ExceptionMeans(x: Json)
    ensures ExceptionOk(x) <==> ExceptionFields(x)
  {
    if x.Obj? {
      var keys := ["finding_id", "disposition", "rationale", "owner", "revisit_trigger"];
      assert forall k :: k in EXCEPTION_KEYS <==> k in keys;
      assert x.fields.Keys == EXCEPTION_KEYS <==> HasExactly(x, keys);
      assert "rationale" in EXCEPTION_TEXTS && "owner" in EXCEPTION_TEXTS && "revisit_trigger" in EXCEPTION_TEXTS;
    }
  }

  /** The profiles: known ones, none twice, and all that were detected. */
  ghost predicate ProfilesMeet(profiles: Json, detected: seq<string>) {
    && SaysEach(profiles) && |profiles.items| >= 1
    && (forall i, j :: 0 <= i < j < |profiles.items| ==> profiles.items[i].s != profiles.items[j].s)
    && (forall i :: 0 <= i < |profiles.items| ==>
          profiles.items[i].s in ["minimal", "frontend-web", "full-stack-web", "python-service", "data-analytics",
                                  "pipeline-jobs", "cli-library"])
    && (forall p :: p in detected && p != "" ==> exists i :: 0 <= i < |profiles.items| && profiles.items[i].s == p)
  }

  lemma ProfilesMean(profiles: Json, detected: seq<string>)
    ensures ProfilesOk(profiles, detected) <==> ProfilesMeet(profiles, detected)
  {
    SaysIs(profiles);
    if TextList(profiles) {
      var names := Texts(profiles.items);
      assert forall i :: 0 <= i < |names| ==> names[i] == profiles.items[i].s;
      assert forall p :: p in names <==> exists i :: 0 <= i < |profiles.items| && profiles.items[i].s == p;
      forall i | 0 <= i < |names| ensures names[i] in names && (names[i] in PROFILES <==>
        names[i] in ["minimal", "frontend-web", "full-stack-web", "python-service", "data-analytics",
                     "pipeline-jobs", "cli-library"]) {
      }
    }
  }

  /** The fields of the plan itself. In Python True == 1, so the version may be true. */
  ghost predicate HeaderFields(plan: Json, audit: Audit) {
    && HasExactly(plan, ["version", "constitution_version", "audit_digest", "target_profiles", "non_goals", "tranches",
                         "exceptions"])
    && Serializable(plan)
    && (plan.fields["version"] == Num(1.0) || plan.fields["version"] == Bool(true))
    && plan.fields["constitution_version"] == Str("1.0") && audit.constitutionVersion == "1.0"
    && plan.fields["audit_digest"] == Str(audit.digest)
    && ListsAt(plan, "non_goals", 1)
    && ProfilesMeet(plan.fields["target_profiles"], audit.profiles)
    && plan.fields["tranches"].List? && plan.fields["exceptions"].List?
  }

  lemma HeaderMeans(plan: Json, audit: Audit)
    ensures HeaderOk(plan, audit) <==> HeaderFields(plan, audit)
  {
    if plan.Obj? {
      var keys := ["version", "constitution_version", "audit_digest", "target_profiles", "non_goals", "tranches",
                   "exceptions"];
      assert forall k :: k in PLAN_KEYS <==> k in keys;
      assert plan.fields.Keys == PLAN_KEYS <==> HasExactly(plan, keys);
      SaysIs(plan.Get("non_goals"));
      ProfilesMean(plan.Get("target_profiles"), audit.profiles);
    }
  }

  // ---------------------------------------------------------------- places

  /** What is read of a tranche: its key, the findings it addresses and the tranches it depends on. */
  lemma TrancheRead(ts: seq<Json>, i: nat)
    requires (forall t :: t in ts ==> TrancheOk(t)) && i < |ts|
    ensures |TranchesOf(ts)| == |ts| && TrancheFields(ts[i])
    ensures var t, fields := TranchesOf(ts)[i], ts[i].fields;
            && t.key == fields["key"].s
            && |t.addresses| == |fields["addresses"].items| && |t.dependsOn| == |fields["depends_on"].items|
            && (forall j :: 0 <= j < |t.addresses| ==> t.addresses[j] == fields["addresses"].items[j].s)
            && (forall j :: 0 <= j < |t.dependsOn| ==> t.dependsOn[j] == fields["depends_on"].items[j].s)
  {
    assert ts[i] in ts;
    TrancheMeans(ts[i]);
  }

  /** No finding is addressed at two places, be it in one tranche or in two. */
  ghost predicate PlacesDiffer(ts: seq<Tranche>) {
    forall i, p, j, q :: AddressAt(ts, i, p) && AddressAt(ts, j, q) && ts[i].addresses[p] == ts[j].addresses[q] ==>
      i == j && p == q
  }

  predicate AddressAt(ts: seq<Tranche>, i: int, p: int) { 0 <= i < |ts| && 0 <= p < |ts[i].addresses| }

  lemma {:induction false} PlacesMean(ts: seq<Tranche>)
    ensures Distinct(Addresses(ts)) <==> PlacesDiffer(ts)
  {
    if ts != [] {
      var most, last := ts[..|ts| - 1], ts[|ts| - 1];
      PlacesMean(most);
      DistinctJoin(Addresses(most), last.addresses);
      LastPlaces(ts, most, last);
    }
  }

  lemma DistinctJoin(a: seq<string>, b: seq<string>)
    ensures Distinct(a + b) <==> Distinct(a) && Distinct(b) && forall f :: f in a ==> f !in b
  {
    if Distinct(a + b) {
      forall i, j | 0 <= i < j < |a| ensures a[i] != a[j] {
        assert (a + b)[i] != (a + b)[j];
      }
      forall i, j | 0 <= i < j < |b| ensures b[i] != b[j] {
        assert (a + b)[|a| + i] != (a + b)[|a| + j];
      }
      forall i, j | 0 <= i < |a| && 0 <= j < |b| ensures a[i] != b[j] {
        assert (a + b)[i] != (a + b)[|a| + j];
      }
    }
    if Distinct(a) && Distinct(b) && forall f :: f in a ==> f !in b {
      forall i, j | 0 <= i < j < |a + b| ensures (a + b)[i] != (a + b)[j] {
        if i < |a| <= j {
          assert a[i] in a && b[j - |a|] in b;
        }
      }
    }
  }

  lemma LastPlaces(ts: seq<Tranche>, most: seq<Tranche>, last: Tranche)
    requires ts == most + [last]
    ensures PlacesDiffer(ts) <==>
              && PlacesDiffer(most) && Distinct(last.addresses)
              && forall f :: f in Addresses(most) ==> f !in last.addresses
  {
    var n := |most|;
    assert forall i, p :: AddressAt(ts, i, p) && i < n ==> AddressAt(most, i, p) && ts[i] == most[i];
    assert forall i, p :: AddressAt(most, i, p) ==> AddressAt(ts, i, p) && ts[i] == most[i];
    if PlacesDiffer(ts) {
      forall p, q | 0 <= p < q < |last.addresses| ensures last.addresses[p] != last.addresses[q] {
        assert AddressAt(ts, n, p) && AddressAt(ts, n, q);
      }
      forall f | f in Addresses(most) ensures f !in last.addresses {
        var i, p := PlaceOf(most, f);
        assert AddressAt(ts, i, p) && forall q :: 0 <= q < |last.addresses| ==> AddressAt(ts, n, q);
      }
    }
    if PlacesDiffer(most) && Distinct(last.addresses) && forall f :: f in Addresses(most) ==> f !in last.addresses {
      forall i, p | AddressAt(most, i, p) ensures most[i].addresses[p] in Addresses(most) {
        AddressedBySome(most, most[i].addresses[p]);
      }
    }
  }

  lemma PlaceOf(ts: seq<Tranche>, f: string) returns (i: nat, p: nat)
    requires f in Addresses(ts)
    ensures AddressAt(ts, i, p) && ts[i].addresses[p] == f
  {
    AddressedBySome(ts, f);
    i :| 0 <= i < |ts| && f in ts[i].addresses;
    p :| 0 <= p < |ts[i].addresses| && ts[i].addresses[p] == f;
  }

  /** Every dependency is the key of another tranche. */
  ghost predicate DependenciesExist(ts: seq<Tranche>) {
    forall i, d :: 0 <= i < |ts| && d in ts[i].dependsOn ==> KeyOfAnother(ts, i, d)
  }

  ghost predicate KeyOfAnother(ts: seq<Tranche>, i: int, d: string) {
    exists j :: 0 <= j < |ts| && j != i && ts[j].key == d
  }

  /** The tranches can be ranked so that all that one depends on ranks lower. */
  ghost predicate Ranked(ts: seq<Tranche>, rank: seq<nat>) {
    && |rank| == |ts|
    && forall i, j :: 0 <= i < |ts| && 0 <= j < |ts| && ts[j].key in ts[i].dependsOn ==> rank[j] < rank[i]
  }

  ghost predicate KeysDiffer(ts: seq<Tranche>) { forall i, j :: 0 <= i < j < |ts| ==> ts[i].key != ts[j].key }

  /** The tranches together: keys and addresses differ, dependencies are there, and they can be ranked. */
  lemma TranchesMean(ts: seq<Tranche>)
    ensures TranchesOk(ts) <==>
              KeysDiffer(ts) && PlacesDiffer(ts) && DependenciesExist(ts) && exists rank :: Ranked(ts, rank)
  {
    PlacesMean(ts);
    assert forall i :: 0 <= i < |ts| ==> Keys(ts)[i] == ts[i].key;
    assert Distinct(Keys(ts)) <==> KeysDiffer(ts);
    if KeysDiffer(ts) {
      DependenciesMean(ts);
      if DependenciesExist(ts) {
        RanksMean(ts);
      }
    }
  }

  lemma {:induction false} MapKeys(ts: seq<Tranche>, k: string)
    ensures k in DependencyMap(ts) <==> k in Keys(ts)
  {
    if ts != [] {
      MapKeys(ts[..|ts| - 1], k);
      assert Keys(ts) == Keys(ts[..|ts| - 1]) + [ts[|ts| - 1].key];
    }
  }

  lemma DependenciesMean(ts: seq<Tranche>)
    requires KeysDiffer(ts) && Distinct(Keys(ts))
    ensures DependenciesKnown(Keys(ts), DependencyMap(ts)) <==> DependenciesExist(ts)
  {
    forall i | 0 <= i < |ts|
      ensures ts[i].key in DependencyMap(ts) && DependencyMap(ts)[ts[i].key] == ts[i].dependsOn
      ensures Known(ts[i].key, ts[i].dependsOn, Keys(ts)) <==>
                forall d :: d in ts[i].dependsOn ==> KeyOfAnother(ts, i, d)
    {
      DependencyMapAt(ts, i);
      KnownMeans(ts, i);
    }
    forall k | k in DependencyMap(ts) ensures exists i :: 0 <= i < |ts| && ts[i].key == k {
      MapKeys(ts, k);
      var i :| 0 <= i < |Keys(ts)| && Keys(ts)[i] == k;
    }
  }

  lemma KnownMeans(ts: seq<Tranche>, i: nat)
    requires KeysDiffer(ts) && i < |ts|
    ensures Known(ts[i].key, ts[i].dependsOn, Keys(ts)) <==>
              forall d :: d in ts[i].dependsOn ==> KeyOfAnother(ts, i, d)
  {
    var ds := ts[i].dependsOn;
    assert forall k :: 0 <= k < |ds| ==> ds[k] in ds;
    forall d ensures KeyOfAnother(ts, i, d) <==> d != ts[i].key && d in Keys(ts) {
      if d in Keys(ts) {
        var j :| 0 <= j < |Keys(ts)| && Keys(ts)[j] == d;
        assert ts[j].key == d;
      }
      if KeyOfAnother(ts, i, d) {
        var j :| 0 <= j < |ts| && j != i && ts[j].key == d;
        assert Keys(ts)[j] == d;
      }
    }
  }

  lemma RanksMean(ts: seq<Tranche>)
    requires KeysDiffer(ts) && Distinct(Keys(ts)) && DependenciesExist(ts)
    ensures Orderable(DependencyEdges(DependencyMap(ts)), Keys(ts)) <==> exists rank :: Ranked(ts, rank)
  {
    var e := DependencyEdges(DependencyMap(ts));
    forall i | 0 <= i < |ts| ensures ts[i].key in DependencyMap(ts) && DependencyMap(ts)[ts[i].key] == ts[i].dependsOn {
      DependencyMapAt(ts, i);
    }
    if Orderable(e, Keys(ts)) {
      var number :| (forall k :: k in Keys(ts) ==> k in number) && Topological(e, number);
      RanksOf(ts, number);
    }
    if rank :| Ranked(ts, rank) {
      NumbersOf(ts, rank);
    }
  }

  lemma RanksOf(ts: seq<Tranche>, number: map<string, nat>)
    requires (forall k :: k in Keys(ts) ==> k in number) && Topological(DependencyEdges(DependencyMap(ts)), number)
    requires forall i :: 0 <= i < |ts| ==> ts[i].key in DependencyMap(ts)
                                           && DependencyMap(ts)[ts[i].key] == ts[i].dependsOn
    ensures exists rank :: Ranked(ts, rank)
  {
    var rank := RanksByNumber(ts, number);
    forall i, j | 0 <= i < |ts| && 0 <= j < |ts| && ts[j].key in ts[i].dependsOn ensures rank[j] < rank[i] {
      LowerNumber(DependencyMap(ts), number, ts[i].key, ts[j].key);
    }
    assert Ranked(ts, rank);
  }

  lemma RanksByNumber(ts: seq<Tranche>, number: map<string, nat>) returns (rank: seq<nat>)
    requires forall k :: k in Keys(ts) ==> k in number
    ensures |rank| == |ts|
    ensures forall i :: 0 <= i < |ts| ==> ts[i].key in number && rank[i] == number[ts[i].key]
  {
    forall i | 0 <= i < |ts| ensures ts[i].key in number {
      assert Keys(ts)[i] == ts[i].key && Keys(ts)[i] in Keys(ts);
    }
    rank := seq(|ts|, i requires 0 <= i < |ts| => number[ts[i].key]);
  }

  lemma LowerNumber(deps: Dependencies, number: map<string, nat>, k: string, d: string)
    requires Topological(DependencyEdges(deps), number) && k in deps && d in deps[k] && k in number
    ensures d in number && number[d] < number[k]
  {
    assert (k, d) in DependencyEdges(deps);
  }

  lemma NumbersOf(ts: seq<Tranche>, rank: seq<nat>)
    requires Ranked(ts, rank) && KeysDiffer(ts) && DependenciesExist(ts)
    requires forall i :: 0 <= i < |ts| ==> ts[i].key in DependencyMap(ts)
                                           && DependencyMap(ts)[ts[i].key] == ts[i].dependsOn
    ensures Orderable(DependencyEdges(DependencyMap(ts)), Keys(ts))
  {
    var number := NumbersByRank(ts, rank);
    forall u, v | (u, v) in DependencyEdges(DependencyMap(ts)) && u in number
      ensures v in number && number[v] < number[u]
    {
      var i :| 0 <= i < |ts| && ts[i].key == u;
      assert v in ts[i].dependsOn && KeyOfAnother(ts, i, v);
      var j :| 0 <= j < |ts| && j != i && ts[j].key == v;
    }
    assert Topological(DependencyEdges(DependencyMap(ts)), number);
    forall k | k in Keys(ts) ensures k in number {
      var i :| 0 <= i < |Keys(ts)| && Keys(ts)[i] == k;
      assert ts[i].key == k;
    }
  }

  lemma {:induction false} NumbersByRank(ts: seq<Tranche>, rank: seq<nat>) returns (number: map<string, nat>)
    requires |rank| == |ts| && KeysDiffer(ts)
    ensures forall i :: 0 <= i < |ts| ==> ts[i].key in number && number[ts[i].key] == rank[i]
    ensures forall k :: k in number ==> exists i :: 0 <= i < |ts| && ts[i].key == k
  {
    number := map[];
    if ts != [] {
      var n := |ts| - 1;
      number := NumbersByRank(ts[..n], rank[..n]);
      number := number[ts[n].key := rank[n]];
    }
  }

  // ---------------------------------------------------------------- findings

  predicate DeferredAt(deferred: seq<string>, f: string, i: int) { 0 <= i < |deferred| && deferred[i] == f }

  ghost predicate IsFinding(findings: seq<Finding>, f: string) {
    exists i :: 0 <= i < |findings| && findings[i].findingId == f
  }

  /** Some tranche addresses it, or an exception names it, and not both. */
  ghost predicate DealtWithOnce(ts: seq<Tranche>, deferred: seq<string>, f: string) {
    (exists i, p :: AddressAt(ts, i, p) && ts[i].addresses[p] == f) != (exists i :: DeferredAt(deferred, f, i))
  }

  lemma FindingsMean(ts: seq<Tranche>, deferred: seq<string>, findings: seq<Finding>)
    ensures FindingsOk(Addresses(ts), deferred, findings) <==>
              && (forall i, p :: AddressAt(ts, i, p) ==> IsFinding(findings, ts[i].addresses[p]))
              && (forall i :: 0 <= i < |deferred| ==> IsFinding(findings, deferred[i]))
              && (forall m :: m in findings && m.material ==> DealtWithOnce(ts, deferred, m.findingId))
  {
    forall f
      ensures f in Addresses(ts) <==> exists i, p :: AddressAt(ts, i, p) && ts[i].addresses[p] == f
      ensures f in deferred <==> exists i :: DeferredAt(deferred, f, i)
    {
      if f in Addresses(ts) {
        var i, p := PlaceOf(ts, f);
      }
      AddressedBySome(ts, f);
      if f in deferred {
        var i :| 0 <= i < |deferred| && deferred[i] == f;
        assert DeferredAt(deferred, f, i);
      }
    }
    forall i, p | AddressAt(ts, i, p) ensures ts[i].addresses[p] in Addresses(ts) {
      AddressedBySome(ts, ts[i].addresses[p]);
    }
    assert forall i :: 0 <= i < |deferred| ==> deferred[i] in deferred;
    assert forall i :: 0 <= i < |findings| ==> findings[i] in findings;
  }

  lemma DeferredRead(xs: seq<Json>, i: nat)
    requires (forall x :: x in xs ==> ExceptionOk(x)) && i < |xs|
    ensures |Deferred(xs)| == |xs| && ExceptionFields(xs[i]) && Deferred(xs)[i] == xs[i].fields["finding_id"].s
  {
    assert xs[i] in xs;
    ExceptionMeans(xs[i]);
  }

  /** What tranches and exceptions must meet together. */
  ghost predicate TogetherMeet(ts: seq<Tranche>, deferred: seq<string>, findings: seq<Finding>) {
    && KeysDiffer(ts) && PlacesDiffer(ts) && DependenciesExist(ts) && (exists rank :: Ranked(ts, rank))
    && (forall i, j :: 0 <= i < j < |deferred| ==> deferred[i] != deferred[j])
    && (forall i, p :: AddressAt(ts, i, p) ==> IsFinding(findings, ts[i].addresses[p]))
    && (forall i :: 0 <= i < |deferred| ==> IsFinding(findings, deferred[i]))
    && (forall m :: m in findings && m.material ==> DealtWithOnce(ts, deferred, m.findingId))
  }

  lemma TogetherMean(ts: seq<Tranche>, deferred: seq<string>, findings: seq<Finding>)
    ensures TranchesOk(ts) && Distinct(deferred) && FindingsOk(Addresses(ts), deferred, findings) <==>
            TogetherMeet(ts, deferred, findings)
  {
    TranchesMean(ts);
    FindingsMean(ts, deferred, findings);
  }

  /**
   * A plan meets the contract exactly when its own fields do, when every tranche and every exception does
   * (`EntriesMean`), and when they do together.
   */
  lemma PlanMeans(plan: Json, audit: Audit)
    ensures PlanOk(plan, audit) <==>
              && HeaderFields(plan, audit)
              && (forall t :: t in plan.fields["tranches"].items ==> TrancheOk(t))
              && (forall x :: x in plan.fields["exceptions"].items ==> ExceptionOk(x))
              && TogetherMeet(TranchesOf(plan.fields["tranches"].items), Deferred(plan.fields["exceptions"].items),
                              audit.findings)
  {
    HeaderMeans(plan, audit);
    if HeaderFields(plan, audit) &&
      (forall t :: t in plan.fields["tranches"].items ==> TrancheOk(t)) &&
      (forall x :: x in plan.fields["exceptions"].items ==> ExceptionOk(x)) {
      TogetherMean(TranchesOf(plan.fields["tranches"].items), Deferred(plan.fields["exceptions"].items),
                   audit.findings);
    }
  }

  lemma EntriesMean(ts: seq<Json>, xs: seq<Json>)
    ensures (forall t :: t in ts ==> TrancheOk(t)) <==> forall i :: 0 <= i < |ts| ==> TrancheFields(ts[i])
    ensures (forall x :: x in xs ==> ExceptionOk(x)) <==> forall i :: 0 <= i < |xs| ==> ExceptionFields(xs[i])
  {
    forall i | 0 <= i < |ts| ensures ts[i] in ts && (TrancheOk(ts[i]) <==> TrancheFields(ts[i])) {
      TrancheMeans(ts[i]);
    }
    forall i | 0 <= i < |xs| ensures xs[i] in xs && (ExceptionOk(xs[i]) <==> ExceptionFields(xs[i])) {
      ExceptionMeans(xs[i]);
    }
  }
}
