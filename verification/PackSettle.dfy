/** A live conflict set is shown whole or deleted with all its members: the closure that deletes broken sets. */
module PackSettle {
  import opened PackModel

  /** Every live conflict set is wholly among the keys, or wholly absent. */
  ghost predicate Stable(live: set<Conflict>, keys: set<Key>) {
    forall c :: c in live ==> c.members <= keys || c.members !! keys
  }

  ghost predicate StableWithin(live: set<Conflict>, kept: set<Key>, keys: set<Key>) {
    keys <= kept && Stable(live, keys)
  }

  /** The union of all stable sub-selections. */
  ghost function Greatest(live: set<Conflict>, kept: set<Key>): set<Key> {
    set k | k in kept && exists t :: StableWithin(live, kept, t) && k in t
  }

  /** It is stable itself, so it is the greatest stable sub-selection. */
  lemma GreatestIsStable(live: set<Conflict>, kept: set<Key>)
    ensures StableWithin(live, kept, Greatest(live, kept))
    ensures forall t :: StableWithin(live, kept, t) ==> t <= Greatest(live, kept)
  {
    forall c | c in live && !(c.members !! Greatest(live, kept)) ensures c.members <= Greatest(live, kept) {
      var k :| k in c.members && k in Greatest(live, kept);
      var t :| StableWithin(live, kept, t) && k in t;
      assert c.members <= t;
    }
  }

  /** The sub-sequence of the given keys. */
  function Keep(s: seq<Key>, keys: set<Key>): (r: seq<Key>)
    ensures forall k :: k in r <==> k in s && k in keys
    ensures |r| <= |s|
  {
    if s == [] then []
    else if s[|s| - 1] in keys then Keep(s[..|s| - 1], keys) + [s[|s| - 1]]
    else Keep(s[..|s| - 1], keys)
  }

  lemma {:induction false} KeepAll(s: seq<Key>, keys: set<Key>)
    requires forall k :: k in s ==> k in keys
    ensures Keep(s, keys) == s
  {
    if s != [] {
      KeepAll(s[..|s| - 1], keys);
      assert s[|s| - 1] in s;
      assert s == s[..|s| - 1] + [s[|s| - 1]];
    }
  }

  lemma {:induction false} KeepKeep(s: seq<Key>, a: set<Key>, b: set<Key>)
    ensures Keep(Keep(s, a), b) == Keep(s, a * b)
  {
    if s != [] {
      KeepKeep(s[..|s| - 1], a, b);
      var most, last := Keep(s[..|s| - 1], a), s[|s| - 1];
      if last in a {
        assert (most + [last])[..|most|] == most;
      }
    }
  }

  function KeySet(s: seq<Key>): set<Key> { set k | k in s }

  ghost function WholeSets(live: set<Conflict>, keys: set<Key>): set<Conflict> {
    set c | c in live && c.members <= keys
  }

  /** What _settle leaves of the kept items and of the live sets, and how many sets it deletes. */
  ghost function SettledKept(kept: seq<Key>, live: set<Conflict>): seq<Key> {
    Keep(kept, Greatest(live, KeySet(kept)))
  }

  ghost function SettledLive(kept: seq<Key>, live: set<Conflict>): set<Conflict> {
    WholeSets(live, Greatest(live, KeySet(kept)))
  }

  lemma SettledKeys(kept: seq<Key>, live: set<Conflict>)
    ensures KeySet(SettledKept(kept, live)) == Greatest(live, KeySet(kept))
  {
    GreatestIsStable(live, KeySet(kept));
  }

  /**
   * Settling keeps every item that belongs to no live set; what it leaves is whole, and settling again does nothing.
   */
  lemma SettleFacts(kept: seq<Key>, live: set<Conflict>)
    ensures forall k :: k in kept && k !in Members(live) ==> k in SettledKept(kept, live)
    ensures forall c :: c in SettledLive(kept, live) ==> c.members <= KeySet(SettledKept(kept, live))
    ensures forall c :: c in live && c !in SettledLive(kept, live) ==> c.members !! KeySet(SettledKept(kept, live))
    ensures forall k :: k in SettledKept(kept, live) && k in Members(live) ==> k in Members(SettledLive(kept, live))
  {
    var g := Greatest(live, KeySet(kept));
    SettledKeys(kept, live);
    GreatestIsStable(live, KeySet(kept));
    forall k | k in kept && k !in Members(live) ensures k in g {
      var t := g + {k};
      assert StableWithin(live, KeySet(kept), t);
    }
    forall k | k in g && k in Members(live) ensures k in Members(SettledLive(kept, live)) {
      var c :| c in live && k in c.members;
      assert c in SettledLive(kept, live);
    }
  }

  /** When every live set is whole there is nothing to do. */
  lemma SettleWhole(kept: seq<Key>, live: set<Conflict>)
    requires forall c :: c in live ==> c.members <= KeySet(kept)
    ensures SettledKept(kept, live) == kept && SettledLive(kept, live) == live
  {
    GreatestIsStable(live, KeySet(kept));
    assert StableWithin(live, KeySet(kept), KeySet(kept));
    assert Greatest(live, KeySet(kept)) == KeySet(kept);
    KeepAll(kept, KeySet(kept));
  }

  /**
   * _settle. It deletes any broken set with all its members, as often as there is one; whichever it picks, what remains
   * is the greatest stable sub-selection, in the old order.
   */
  method Settle(kept: seq<Key>, live: set<Conflict>) returns (out: seq<Key>, left: set<Conflict>, deleted: nat)
    requires forall c :: c in live ==> c.members != {}
    ensures out == SettledKept(kept, live)
    ensures left == SettledLive(kept, live)
    ensures deleted == |live| - |left|
  {
    ghost var g := Greatest(live, KeySet(kept));
    GreatestIsStable(live, KeySet(kept));
    out, left, deleted := kept, live, 0;
    KeepAll(kept, KeySet(kept));
    var changed := true;
    while changed
      invariant left <= live && deleted + |left| == |live|
      invariant g <= KeySet(out) <= KeySet(kept) && out == Keep(kept, KeySet(out))
      invariant forall c :: c in live && c !in left ==> c.members !! KeySet(out)
      invariant !changed ==> forall c :: c in left ==> c.members <= KeySet(out)
      decreases |left|, changed
    {
      changed := false;
      var present := KeySet(out);
      var broken := set c | c in left && !(c.members <= present);
      if broken != {} {
        var c :| c in broken;
        assert c.members !! g;
        DeleteMembers(kept, present, c.members);
        left, deleted, changed := left - {c}, deleted + 1, true;
        out := Keep(out, present - c.members);
      }
    }
    SettledIsGreatest(kept, live, KeySet(out), left);
  }

  lemma DeleteMembers(kept: seq<Key>, present: set<Key>, members: set<Key>)
    requires present <= KeySet(kept)
    ensures Keep(Keep(kept, present), present - members) == Keep(kept, present - members)
    ensures KeySet(Keep(kept, present - members)) == present - members
  {
    KeepKeep(kept, present, present - members);
    assert present * (present - members) == present - members;
  }

  /** Once no live set is broken, what is left is the greatest stable sub-selection. */
  lemma SettledIsGreatest(kept: seq<Key>, live: set<Conflict>, left: set<Key>, sets: set<Conflict>)
    requires sets <= live && Greatest(live, KeySet(kept)) <= left <= KeySet(kept)
    requires forall c :: c in live && c !in sets ==> c.members != {} && c.members !! left
    requires forall c :: c in sets ==> c.members <= left
    ensures left == Greatest(live, KeySet(kept)) && sets == WholeSets(live, left)
  {
    GreatestIsStable(live, KeySet(kept));
    assert StableWithin(live, KeySet(kept), left);
  }
}
