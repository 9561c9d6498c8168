/** Following superseded_by: superseded rows stay superseded, and every chain ends at a row that still stands. */
module Supersession {
  import opened KnowledgeModel
  import opened KnowledgeRuns
  import opened Wrappers

  ghost predicate Link(items: map<Key, Item>, k: Key, n: Key) {
    k in items && items[k].status == Superseded && items[k].supersededBy == Some(n)
  }

  /** p follows superseded_by from p[0] to a row that is not superseded. */
  ghost predicate Resolution(items: map<Key, Item>, p: seq<Key>) {
    && p != [] && p[|p| - 1] in items && items[p[|p| - 1]].status != Superseded
    && forall i, j :: 0 <= i < |p| && j == i + 1 < |p| ==> Link(items, p[i], p[j])
  }

  ghost predicate Resolves(items: map<Key, Item>, k: Key, end: Key) {
    exists p :: Resolution(items, p) && p[0] == k && p[|p| - 1] == end
  }

  ghost predicate SameScope(items: map<Key, Item>, k: Key) {
    k in items && items[k].status == Superseded ==>
      && items[k].supersededBy.Some? && items[k].supersededBy.value in items
      && items[items[k].supersededBy.value].kind == items[k].kind
      && items[items[k].supersededBy.value].project == items[k].project
  }

  ghost predicate Standing(items: map<Key, Item>, k: Key) {
    k in items ==> exists end :: Resolves(items, k, end)
  }

  /** Every supersession stays within its type and scope, and every chain ends. */
  ghost predicate Settled(items: map<Key, Item>) {
    && (forall k :: SameScope(items, k))
    && (forall k :: Standing(items, k))
  }

  // ---------------------------------------------------------------- what a settled table guarantees

  /** Two resolutions of one row are the same path. */
  lemma {:induction false} ResolutionUnique(items: map<Key, Item>, p: seq<Key>, q: seq<Key>)
    requires Resolution(items, p) && Resolution(items, q) && p[0] == q[0]
    ensures p == q
  {
    if |p| > 1 && |q| > 1 {
      assert Link(items, p[0], p[1]) && Link(items, q[0], q[1]);
      ResolutionTail(items, p);
      ResolutionTail(items, q);
      ResolutionUnique(items, p[1..], q[1..]);
      assert p == [p[0]] + p[1..] && q == [q[0]] + q[1..];
    } else {
      StopsWhereItStands(items, p);
      StopsWhereItStands(items, q);
    }
  }

  lemma StopsWhereItStands(items: map<Key, Item>, p: seq<Key>)
    requires Resolution(items, p)
    ensures p[0] in items && (|p| == 1 <==> items[p[0]].status != Superseded)
  {
    if |p| > 1 {
      assert Link(items, p[0], p[1]);
    }
  }

  lemma ResolutionTail(items: map<Key, Item>, p: seq<Key>)
    requires Resolution(items, p) && |p| > 1
    ensures Resolution(items, p[1..]) && Link(items, p[0], p[1])
  {
    var q := p[1..];
    forall i, j | 0 <= i < |q| && j == i + 1 < |q| ensures Link(items, q[i], q[j]) {
      assert Link(items, p[i + 1], p[j + 1]);
    }
  }

  /** A chain ends at exactly one row, of the same type and scope, and that row is not superseded. */
  lemma {:induction false} ResolvedInScope(items: map<Key, Item>, k: Key, end: Key)
    requires Settled(items) && Resolves(items, k, end)
    ensures k in items && end in items && items[end].status != Superseded
    ensures items[end].kind == items[k].kind && items[end].project == items[k].project
    ensures forall other :: Resolves(items, k, other) ==> other == end
  {
    var p :| Resolution(items, p) && p[0] == k && p[|p| - 1] == end;
    PathInScope(items, p);
    forall other | Resolves(items, k, other) ensures other == end {
      var q :| Resolution(items, q) && q[0] == k && q[|q| - 1] == other;
      ResolutionUnique(items, p, q);
    }
  }

  lemma {:induction false} PathInScope(items: map<Key, Item>, p: seq<Key>)
    requires Settled(items) && Resolution(items, p)
    ensures p[0] in items && items[p[|p| - 1]].kind == items[p[0]].kind
    ensures items[p[|p| - 1]].project == items[p[0]].project
  {
    if |p| > 1 {
      ResolutionTail(items, p);
      PathInScope(items, p[1..]);
      assert SameScope(items, p[0]);
    }
  }

  /** In a settled table no chain of supersessions comes back to where it started. */
  lemma NoSupersessionCycle(items: map<Key, Item>, c: seq<Key>)
    requires Settled(items) && |c| > 1
    requires forall i, j :: 0 <= i < |c| && j == i + 1 < |c| ==> Link(items, c[i], c[j])
    ensures c[|c| - 1] != c[0]
  {
    assert Link(items, c[0], c[1]) && Standing(items, c[0]);
    var end :| Resolves(items, c[0], end);
    var p :| Resolution(items, p) && p[0] == c[0] && p[|p| - 1] == end;
    if c[|c| - 1] == c[0] {
      NoLoop(items, c, p);
    }
  }

  /** A path that resolves would have to run through the loop, and again from there, ever shorter. */
  lemma {:induction false} NoLoop(items: map<Key, Item>, c: seq<Key>, p: seq<Key>)
    requires |c| > 1 && c[|c| - 1] == c[0]
    requires forall i, j :: 0 <= i < |c| && j == i + 1 < |c| ==> Link(items, c[i], c[j])
    requires Resolution(items, p) && p[0] == c[0]
    ensures false
    decreases |p|
  {
    FollowsLoop(items, c, p, |c| - 1);
    var q := p[|c| - 1..];
    forall i, j | 0 <= i < |q| && j == i + 1 < |q| ensures Link(items, q[i], q[j]) {
      assert Link(items, p[i + |c| - 1], p[j + |c| - 1]);
    }
    NoLoop(items, c, q);
  }

  lemma {:induction false} FollowsLoop(items: map<Key, Item>, c: seq<Key>, p: seq<Key>, n: nat)
    requires n < |c| && forall i, j :: 0 <= i < |c| && j == i + 1 < |c| ==> Link(items, c[i], c[j])
    requires Resolution(items, p) && c != [] && p[0] == c[0]
    ensures n < |p| && p[n] == c[n]
  {
    if n > 0 {
      FollowsLoop(items, c, p, n - 1);
      assert Link(items, c[n - 1], c[n]);
      assert n < |p|;
      assert Link(items, p[n - 1], p[n]);
    }
  }

  // ---------------------------------------------------------------- steps that touch no supersession

  /** Existing rows keep their supersession, type and scope; new rows are not superseded. */
  ghost predicate SameLinks(a: map<Key, Item>, b: map<Key, Item>) {
    && (forall k :: k in a ==> k in b && b[k].kind == a[k].kind && b[k].project == a[k].project
                               && b[k].supersededBy == a[k].supersededBy &&
                                  (b[k].status == Superseded <==> a[k].status == Superseded))
    && (forall k :: k in b && k !in a ==> b[k].status != Superseded)
  }

  lemma SameLinksSettled(a: map<Key, Item>, b: map<Key, Item>)
    requires Settled(a) && SameLinks(a, b)
    ensures Settled(b)
  {
    forall k ensures SameScope(b, k) {
      assert SameScope(a, k);
    }
    forall k ensures Standing(b, k) {
      if k in a {
        assert Standing(a, k);
        var end :| Resolves(a, k, end);
        var p :| Resolution(a, p) && p[0] == k && p[|p| - 1] == end;
        assert forall i, j :: 0 <= i < |p| && j == i + 1 < |p| ==> Link(a, p[i], p[j]) ==> Link(b, p[i], p[j]);
        assert Resolution(b, p);
        assert Resolves(b, k, end);
      } else if k in b {
        assert Resolution(b, [k]);
        assert Resolves(b, k, k);
      }
    }
  }

  // ---------------------------------------------------------------- one more supersession

  /** Following superseded_by from the replacement does not lead back to the row it is to replace. */
  ghost predicate Safe(items: map<Key, Item>, key: Key, replacement: Key) {
    !Resolves(items, replacement, key)
  }

  lemma Extend(items: map<Key, Item>, t: map<Key, Item>, key: Key, replacement: Key, k: Key)
    requires Settled(items) && key in items && replacement in items && key != replacement
    requires items[key].status != Superseded && Safe(items, key, replacement) && k in items
    requires key in t && t == items[key := t[key]] && t[key].status == Superseded
    requires t[key].supersededBy == Some(replacement)
    ensures exists end :: Resolves(t, k, end)
  {
    assert Standing(items, k) && Standing(items, replacement);
    var end :| Resolves(items, k, end);
    var p :| Resolution(items, p) && p[0] == k && p[|p| - 1] == end;
    KeptLinks(items, t, key, p);
    if end == key {
      var far :| Resolves(items, replacement, far);
      var q :| Resolution(items, q) && q[0] == replacement && q[|q| - 1] == far;
      KeptLinks(items, t, key, q);
      var r := p + q;
      forall i, j | 0 <= i < |r| && j == i + 1 < |r| ensures Link(t, r[i], r[j]) {
        if j < |p| {
          assert Link(t, p[i], p[j]);
        } else if i >= |p| {
          assert Link(t, q[i - |p|], q[j - |p|]);
        }
      }
      assert Resolution(t, r) && r[0] == k && r[|r| - 1] == far;
      assert Resolves(t, k, far);
    } else {
      assert Resolution(t, p);
      assert Resolves(t, k, end);
    }
  }

  lemma KeptLinks(items: map<Key, Item>, t: map<Key, Item>, key: Key, p: seq<Key>)
    requires Resolution(items, p) && key in items && items[key].status != Superseded
    requires key in t && t == items[key := t[key]]
    ensures forall i, j :: 0 <= i < |p| && j == i + 1 < |p| ==> Link(t, p[i], p[j])
  {
    forall i, j | 0 <= i < |p| && j == i + 1 < |p| ensures Link(t, p[i], p[j]) {
      assert Link(items, p[i], p[j]);
    }
  }

  /** With the replacement's chain ending at the replaced row, the new link closes a cycle. */
  lemma Closes(items: map<Key, Item>, t: map<Key, Item>, key: Key, replacement: Key)
    requires key in items && items[key].status != Superseded && !Safe(items, key, replacement)
    requires key in t && t == items[key := t[key]] && t[key].status == Superseded
    requires t[key].supersededBy == Some(replacement)
    ensures !Settled(t)
  {
    var p :| Resolution(items, p) && p[0] == replacement && p[|p| - 1] == key;
    KeptLinks(items, t, key, p);
    var c := [key] + p;
    forall i, j | 0 <= i < |c| && j == i + 1 < |c| ensures Link(t, c[i], c[j]) {
      if i > 0 {
        assert Link(t, p[i - 1], p[j - 1]);
      }
    }
    if Settled(t) {
      NoSupersessionCycle(t, c);
    }
  }

  /** A supersession within one type and scope leaves the table settled exactly when it is safe. */
  lemma SupersedeSettledExactlyWhen(items: map<Key, Item>, t: map<Key, Item>, key: Key, replacement: Key)
    requires Settled(items) && key in items && replacement in items
    requires MaySupersede(key, items[key], replacement, items[replacement])
    requires exists validTo :: t == items[key := SupersededRow(items[key], replacement, validTo)]
    ensures Settled(t) <==> Safe(items, key, replacement)
  {
    assert t == items[key := t[key]];
    if Safe(items, key, replacement) {
      forall k ensures SameScope(t, k) {
        assert SameScope(items, k);
      }
      forall k ensures Standing(t, k) {
        if k in t {
          Extend(items, t, key, replacement, k);
        }
      }
    } else {
      Closes(items, t, key, replacement);
    }
  }

  /** A replacement that is not superseded itself is always safe: the check that only the lifecycle service makes. */
  lemma StandingReplacementIsSafe(items: map<Key, Item>, key: Key, replacement: Key)
    requires replacement in items && items[replacement].status != Superseded && key != replacement
    ensures Safe(items, key, replacement)
  {
    if Resolves(items, replacement, key) {
      var p :| Resolution(items, p) && p[0] == replacement && p[|p| - 1] == key;
      StopsWhereItStands(items, p);
    }
  }

  // ---------------------------------------------------------------- steps

  lemma RequestSettled(s: State, approvals: Approvals, r: Request)
    requires Settled(s.items)
    ensures Settled(AfterRequest(s, approvals, r).items)
  {
    if Decide(s, approvals, r).Applied? {
      AppliedShape(s, approvals, r);
      var t := AfterRequest(s, approvals, r).items;
      if r.action.Supersede? {
        StandingReplacementIsSafe(s.items, r.target, r.action.successor);
        assert t == s.items[r.target := SupersededRow(s.items[r.target], r.action.successor, Some(r.now))];
        SupersedeSettledExactlyWhen(s.items, t, r.target, r.action.successor);
      } else {
        RowKeepsLinks(s, r);
        SameLinksSettled(s.items, t);
      }
    }
  }

  lemma RowKeepsLinks(s: State, r: Request)
    requires r.target in s.items && !r.action.Supersede? && Apply(s, r).Row?
    ensures SameLinks(s.items, s.items[r.target := Apply(s, r).item])
  {
  }

  /**
   * The older service, by contrast, keeps the table settled exactly when the replacement's chain does not end at the
   * row.
   */
  lemma LegacySettledExactlyWhen(s: State, key: Key, replacement: Key)
    requires Settled(s.items) && key in s.items && replacement in s.items
    requires MaySupersede(key, s.items[key], replacement, s.items[replacement])
    ensures Settled(AfterLegacy(s, key, replacement).items) <==> Safe(s.items, key, replacement)
    ensures !Safe(s.items, key, replacement) ==> s.items[key].status in {Proposed, Rejected}
  {
    var t := AfterLegacy(s, key, replacement).items;
    assert t == s.items[key := SupersededRow(s.items[key], replacement, None)];
    SupersedeSettledExactlyWhen(s.items, t, key, replacement);
    if s.items[replacement].status != Superseded {
      StandingReplacementIsSafe(s.items, key, replacement);
    }
  }

  ghost predicate SafeStep(s: State, step: Step) {
    step.LegacySupersede? ==> Safe(s.items, step.key, step.replacement)
  }

  lemma StepSettled(s: State, approvals: Approvals, step: Step)
    requires Settled(s.items) && SafeStep(s, step)
    ensures Settled(After(s, approvals, step).items)
  {
    match step
    case Lifecycle(r) => RequestSettled(s, approvals, r);
    case LegacySupersede(key, replacement) => LegacyStepSettled(s, key, replacement);
    case _ =>
      OthersKeepLinks(s, approvals, step);
      SameLinksSettled(s.items, After(s, approvals, step).items);
  }

  lemma OthersKeepLinks(s: State, approvals: Approvals, step: Step)
    requires !step.Lifecycle? && !step.LegacySupersede?
    ensures SameLinks(s.items, After(s, approvals, step).items)
  {
  }

  lemma LegacyStepSettled(s: State, key: Key, replacement: Key)
    requires Settled(s.items) && Safe(s.items, key, replacement)
    ensures Settled(AfterLegacy(s, key, replacement).items)
  {
    if key in s.items && replacement in s.items && MaySupersede(key, s.items[key], replacement, s.items[replacement]) {
      LegacySettledExactlyWhen(s, key, replacement);
    }
  }

  /** Superseded is absorbing: no step of either service changes it or its replacement. */
  lemma StepKeepsSuperseded(s: State, approvals: Approvals, step: Step, k: Key)
    requires k in s.items && s.items[k].status == Superseded
    ensures k in After(s, approvals, step).items && After(s, approvals, step).items[k].status == Superseded
    ensures After(s, approvals, step).items[k].supersededBy == s.items[k].supersededBy
  {
    if step.Lifecycle? && Decide(s, approvals, step.request).Applied? {
      AppliedShape(s, approvals, step.request);
    }
  }

  lemma {:induction false} SupersededIsAbsorbing(states: seq<State>, steps: seq<Step>, approvals: Approvals, i: nat,
                                                 j: nat, k: Key)
    requires Run(states, steps, approvals) && i <= j < |states|
    requires k in states[i].items && states[i].items[k].status == Superseded
    ensures k in states[j].items && states[j].items[k].status == Superseded
    ensures states[j].items[k].supersededBy == states[i].items[k].supersededBy
  {
    if i < j {
      SupersededIsAbsorbing(states, steps, approvals, i, j - 1, k);
      assert states[j] == After(states[j - 1], approvals, steps[j - 1]);
      StepKeepsSuperseded(states[j - 1], approvals, steps[j - 1], k);
    }
  }

  /**
   * Starting with nothing superseded, every run of the lifecycle service, interleaved with update, propose and
   * evidence, keeps the table settled; and so do the older service's supersessions as long as each is safe.
   */
  lemma {:induction false} RunsSettle(states: seq<State>, steps: seq<Step>, approvals: Approvals, n: nat)
    requires Run(states, steps, approvals) && n < |states|
    requires forall k :: k in states[0].items ==> states[0].items[k].status != Superseded
    requires forall i :: 0 <= i < n ==> SafeStep(states[i], steps[i])
    ensures Settled(states[n].items)
  {
    if n == 0 {
      forall k ensures Standing(states[0].items, k) {
        if k in states[0].items {
          assert Resolution(states[0].items, [k]);
          assert Resolves(states[0].items, k, k);
        }
      }
    } else {
      RunsSettle(states, steps, approvals, n - 1);
      assert states[n] == After(states[n - 1], approvals, steps[n - 1]);
      StepSettled(states[n - 1], approvals, steps[n - 1]);
    }
  }

  // ---------------------------------------------------------------- the missing check

  const ROW := Item(Some(1), "fact", Proposed, None, 0, false, None, None, None)
  const TWO_ROWS := State(map["a" := ROW, "b" := ROW], [])
  const A_FOR_B := Request(Supersede("a"), "b", Some(1), "APPROVAL-1", "duplicate", 0, false, true)
  const APPROVALS: Approvals := map["APPROVAL-1" := Approval(Some(1), APPROVAL_TYPE, Subject(Supersede("a"), "b"))]

  lemma FirstSupersession()
    ensures Decide(TWO_ROWS, APPROVALS, A_FOR_B).Applied?
    ensures AfterRequest(TWO_ROWS, APPROVALS, A_FOR_B).items == map["a" := ROW, "b" := SupersededRow(ROW, "a", Some(0))]
  {
    assert InputError(A_FOR_B).None?;
    assert RowError(TWO_ROWS.items, "b", 1).None? && RowError(TWO_ROWS.items, "a", 1).None?;
    assert AccessError(TWO_ROWS.items, APPROVALS, A_FOR_B).None?;
  }

  lemma TwoRowsSettled()
    ensures Settled(TWO_ROWS.items)
  {
    forall k ensures Standing(TWO_ROWS.items, k) {
      if k in TWO_ROWS.items {
        assert Resolution(TWO_ROWS.items, [k]);
        assert Resolves(TWO_ROWS.items, k, k);
      }
    }
  }

  /**
   * Of two proposed rows, b is superseded by a through the lifecycle service, then a by b through the older one: a
   * cycle.
   */
  lemma LegacyCanCloseACycle()
    ensures Settled(TWO_ROWS.items) && Decide(TWO_ROWS, APPROVALS, A_FOR_B).Applied?
    ensures !Settled(AfterLegacy(AfterRequest(TWO_ROWS, APPROVALS, A_FOR_B), "a", "b").items)
  {
    TwoRowsSettled();
    FirstSupersession();
    RequestSettled(TWO_ROWS, APPROVALS, A_FOR_B);
    var t := AfterRequest(TWO_ROWS, APPROVALS, A_FOR_B);
    assert Link(t.items, "b", "a");
    assert Resolution(t.items, ["b", "a"]);
    assert Resolves(t.items, "b", "a");
    LegacySettledExactlyWhen(t, "a", "b");
  }
}
