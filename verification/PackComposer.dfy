/** compose itself: the mutable lists, sets and counters, and the loops over them. */
module PackComposer {
  import opened Order
  import opened Sorting
  import opened PackModel
  import opened PackSettle
  import opened PackSelect
  import opened PackCompose
  import opened PackGuarantees
  import opened Wrappers

  /** `items` are the items shown, as evaluation has left them. */
  datatype Pack = Pack(selection: Selection, items: seq<Item>, raw: RawStatus, tokens: nat, bytes: nat)

  function ItemsAt(pool: Pool, keys: seq<Key>): seq<Item>
    requires forall k :: k in keys ==> k in pool
  {
    seq(|keys|, i requires 0 <= i < |keys| => pool[keys[i]])
  }

  /** What compose returns. */
  ghost function PackOf(x: Inputs): Pack
    requires InputsOk(x)
  {
    ShownAreItems(x);
    Pack(Composed(x), ItemsAt(AllItems(x), Composed(x).kept), RawStatusOf(x, Capped(x)), Tokens(x, Composed(x)),
         PackBytes(x, Composed(x)))
  }

  lemma ShownAreItems(x: Inputs)
    requires InputsOk(x)
    ensures forall k :: k in Composed(x).kept ==> k in AllItems(x)
  {
    KeptInPool(x);
    forall k | k in Composed(x).kept ensures k in AllItems(x) {
      assert k in KeySet(Composed(x).kept);
    }
  }

  class Composer {
    const x: Inputs
    var kept: seq<Key>
    var live: set<Conflict>
    var keys: set<Key>
    var digests: map<string, Key>
    var groups: set<string>
    var counts: map<Section, nat>
    var alsoMatched: map<Key, seq<Key>>
    var diag: Diagnostics

    constructor (x: Inputs)
      ensures this.x == x && Now() == Nothing(x.conflicts)
    {
      this.x := x;
      kept, live, keys, digests, groups := [], x.conflicts, {}, map[], {};
      counts, alsoMatched, diag := map[], map[], NO_DIAGNOSTICS;
    }

    function Now(): Selection
      reads this
    {
      Selection(kept, live, keys, digests, groups, counts, alsoMatched, diag)
    }

    // ---------------------------------------------------------------- conflict sets

    method AdmitItem(k: Key)
      requires k in x.candidates
      modifies this
      ensures Now() == Admit(x.candidates, old(Now()), k)
    {
      var i := x.candidates[k];
      counts := counts[i.section := CountOf(Now(), i.section) + 1];
      keys := keys + {k};
      if i.digest !in digests {
        digests := digests[i.digest := k];
      }
      if i.group.Some? {
        groups := groups + {i.group.value};
      }
      kept := kept + [k];
    }

    method AdmitMembers(members: seq<Key>)
      requires forall k :: k in members ==> k in x.candidates
      modifies this
      ensures Now() == AdmitAll(x.candidates, old(Now()), members)
    {
      for i := 0 to |members|
        invariant Now() == AdmitAll(x.candidates, old(Now()), members[..i])
      {
        assert members[i] in members && members[..i + 1][..i] == members[..i];
        AdmitItem(members[i]);
      }
      assert members[..|members|] == members;
    }

    /** One set: its missing members are all admitted, or none when they do not fit the section any more. */
    method AdmitConflict(c: Conflict)
      requires c.members <= x.candidates.Keys
      modifies this
      ensures Now() == AdmitSet(x.candidates, x.params, old(Now()), c)
    {
      var members := SortedMissing(Now(), c);
      if !Fits(x.params, Now(), |members|) {
        DropConflict(c);
      } else {
        AdmitMembers(members);
      }
    }

    method DropConflict(c: Conflict)
      modifies this
      ensures Now() == DropSet(old(Now()), c)
    {
      live := live - {c};
      diag := diag.(conflictSets := diag.conflictSets + 1);
    }

    method AdmitInOrder(order: seq<Conflict>)
      requires forall c :: c in order ==> c.members <= x.candidates.Keys
      modifies this
      ensures Now() == AdmitSets(x.candidates, x.params, old(Now()), order)
    {
      for i := 0 to |order|
        invariant Now() == AdmitSets(x.candidates, x.params, old(Now()), order[..i])
      {
        assert order[i] in order && order[..i + 1][..i] == order[..i];
        AdmitConflict(order[i]);
      }
      assert order[..|order|] == order;
    }

    /** By the least tier among the members, then by reason, then by conflict key. */
    method AdmitConflicts()
      requires InputsOk(x) && Now() == Nothing(x.conflicts)
      modifies this
      ensures Now() == AdmitSets(x.candidates, x.params, Nothing(x.conflicts), AdmissionOrder(x))
    {
      AdmissionStrictTotal(x.candidates, x.name);
      var order := Sorted(Admission(x.candidates, x.name), x.conflicts);
      ArrangedIs(Admission(x.candidates, x.name), x.conflicts, order);
      AdmitInOrder(order);
    }

    method SettleKept()
      requires forall c :: c in live ==> c.members != {}
      modifies this
      ensures Now() == SettleAll(old(Now()))
    {
      var out, left, deleted := Settle(kept, live);
      kept, live, diag := out, left, diag.(conflictSets := diag.conflictSets + deleted);
    }

    // ---------------------------------------------------------------- the main loop

    method TakeItem(k: Key)
      requires k in x.candidates
      modifies this
      ensures Now() == Take(x.candidates, x.params, x.cites, old(Now()), k)
    {
      var i := x.candidates[k];
      if k in keys || (i.group.Some? && i.group.value in groups) {
        diag := diag.(deduplicated := diag.deduplicated + 1);
      } else if i.digest in digests {
        var owner := digests[i.digest];
        alsoMatched := alsoMatched[owner := (if owner in alsoMatched then alsoMatched[owner] else []) + [k]];
        diag := diag.(deduplicated := diag.deduplicated + 1);
      } else if i.episode && !i.failure && exists c :: c in CitedBy(x.cites, i) && c in keys {
        diag := diag.(citedEpisode := diag.citedEpisode + 1);
      } else {
        PlaceItem(k);
      }
    }

    /** The text and the key count as seen even when the section is full. */
    method PlaceItem(k: Key)
      requires k in x.candidates
      modifies this
      ensures var i := x.candidates[k];
              Now() == if CountOf(old(Now()), i.section) >= x.params.budget(i.section) then
                         Seen(old(Now()), k, i.digest).(
                           diag := old(diag).(sectionBudget := old(diag).sectionBudget + 1))
                       else Place(x.candidates, old(Now()), k)
    {
      var i := x.candidates[k];
      digests, keys := digests[i.digest := k], keys + {k};
      if CountOf(Now(), i.section) >= x.params.budget(i.section) {
        diag := diag.(sectionBudget := diag.sectionBudget + 1);
      } else {
        counts := counts[i.section := CountOf(Now(), i.section) + 1];
        if i.group.Some? {
          groups := groups + {i.group.value};
        }
        kept := kept + [k];
      }
    }

    /** Candidates by rank; members of conflicts are passed over. */
    method TakeOthers()
      requires InputsOk(x)
      modifies this
      ensures Now() == TakeAll(x.candidates, x.params, x.cites, old(Now()), Others(x))
    {
      var order := RankedKeys(AllItems(x), x.candidates.Keys);
      OthersAreKept(x, order);
      TakeInOrder(order);
    }

    method TakeInOrder(order: seq<Key>)
      requires forall k :: k in order ==> k in x.candidates
      modifies this
      ensures Now() == TakenOf(x, old(Now()), order)
    {
      ghost var before := Now();
      var inConflict := Members(x.conflicts);
      for i := 0 to |order|
        invariant Now() == TakenOf(x, before, order[..i])
      {
        assert order[i] in order;
        TakenMore(x, before, order, i);
        TakeLoose(order[i], inConflict);
      }
      assert order[..|order|] == order;
    }

    method TakeLoose(k: Key, inConflict: set<Key>)
      requires k in x.candidates
      modifies this
      ensures Now() == if k in inConflict then old(Now()) else Take(x.candidates, x.params, x.cites, old(Now()), k)
    {
      if k !in inConflict {
        TakeItem(k);
      }
    }

    // ---------------------------------------------------------------- cap, raw fallback, trim

    method CapTotal()
      requires forall c :: c in live ==> c.members != {}
      modifies this
      ensures Now() == Cap(AllItems(x), x.params, old(Now()))
    {
      kept := RankedKeys(AllItems(x), KeySet(kept));
      if |kept| > x.params.maxItems {
        CutTail();
      }
    }

    method CutTail()
      requires |kept| > x.params.maxItems && forall c :: c in live ==> c.members != {}
      modifies this
      ensures Now() == SettleAll(Shortened(old(Now()), x.params.maxItems))
    {
      diag := diag.(totalItems := diag.totalItems + (|kept| - x.params.maxItems));
      kept := kept[..x.params.maxItems];
      SettleKept();
    }

    method AddRaw(picked: seq<Key>) returns (used: nat)
      requires forall k :: k in picked ==> k in AllItems(x)
      modifies this
      ensures Now() == AddRows(AllItems(x), old(Now()), picked)
      ensures used == |kept| - |old(kept)|
    {
      ghost var before := Now();
      used := 0;
      for i := 0 to |picked|
        invariant Now() == AddRows(AllItems(x), before, picked[..i])
        invariant used == |kept| - |before.kept|
      {
        var k := picked[i];
        assert k in picked && picked[..i + 1][..i] == picked[..i];
        var digest := AllItems(x)[k].digest;
        if k in keys || digest in digests {
          diag := diag.(deduplicated := diag.deduplicated + 1);
        } else {
          keys, digests, kept, used := keys + {k}, digests[digest := k], kept + [k], used + 1;
        }
      }
      assert picked[..|picked|] == picked;
    }

    method RawFallback() returns (raw: RawStatus)
      requires InputsOk(x) && forall c :: c in live ==> c.members != {}
      modifies this
      ensures Now() == Fallback(x, old(Now()))
      ensures raw == RawStatusOf(x, old(Now()))
    {
      if !x.rawAllowed {
        return Disabled;
      }
      for i := 0 to |kept|
        invariant Now() == old(Now())
        invariant forall j :: 0 <= j < i && kept[j] in x.candidates ==> !Primary(x.candidates[kept[j]].section)
      {
        if kept[i] in x.candidates && Primary(x.candidates[kept[i]].section) {
          return NotNeeded;
        }
      }
      if x.rows.None? {
        return Failed;
      }
      var picked := SelectRaw(x);
      var used := AddRaw(picked);
      AddRowsLive(AllItems(x), old(Now()), picked);
      CapTotal();
      return if used > 0 then Used else NoResults;
    }

    method PopLast()
      requires kept != [] && forall c :: c in live ==> c.members != {}
      modifies this
      ensures Now() == Pop(old(Now())) && |kept| < |old(kept)| && live <= old(live)
    {
      kept := kept[..|kept| - 1];
      diag := diag.(packBytes := diag.packBytes + 1);
      SettleKept();
    }

    method TrimToSize()
      requires forall c :: c in live ==> c.members != {}
      modifies this
      ensures Now() == Trim(x, old(Now()))
    {
      while TooLong(x, Now())
        invariant Trim(x, Now()) == Trim(x, old(Now()))
        invariant forall c :: c in live ==> c.members != {}
        decreases |kept|
      {
        PopLast();
      }
    }

    method Compose() returns (pack: Pack)
      requires InputsOk(x) && Now() == Nothing(x.conflicts)
      modifies this
      ensures pack == PackOf(x)
    {
      AdmitConflicts();
      SetsHaveMembers(x);
      SettleKept();
      TakeOthers();
      CapTotal();
      assert Now() == Capped(x);
      var raw := RawFallback();
      TrimToSize();
      ShownAreItems(x);
      pack := Pack(Now(), ItemsAt(AllItems(x), kept), raw, Tokens(x, Now()), PackBytes(x, Now()));
    }
  }

  /** sorted(…, key=_sort_key) */
  method RankedKeys(pool: Pool, keys: set<Key>) returns (r: seq<Key>)
    ensures r == Ranked(pool, keys)
  {
    RankingStrictTotal(pool);
    r := Sorted(Ranking(pool), keys);
    ArrangedIs(Ranking(pool), keys, r);
  }

  lemma KeepMore(order: seq<Key>, i: nat, keys: set<Key>)
    requires i < |order|
    ensures order[i] !in keys ==> Keep(order[..i + 1], keys) == Keep(order[..i], keys)
    ensures order[i] in keys ==> Keep(order[..i + 1], keys) == Keep(order[..i], keys) + [order[i]]
    ensures order[i] in keys ==>
              Keep(order[..i + 1], keys)[..|Keep(order[..i + 1], keys)| - 1] == Keep(order[..i], keys)
  {
    assert order[..i + 1][..i] == order[..i];
  }

  /** The main loop over those of the given candidates that lie outside every conflict. */
  ghost function TakenOf(x: Inputs, s: Selection, order: seq<Key>): Selection {
    TakeAll(x.candidates, x.params, x.cites, s, Keep(order, x.candidates.Keys - Members(x.conflicts)))
  }

  lemma TakenMore(x: Inputs, s: Selection, order: seq<Key>, i: nat)
    requires i < |order| && order[i] in x.candidates
    ensures TakenOf(x, s, order[..i + 1]) ==
              if order[i] in Members(x.conflicts) then TakenOf(x, s, order[..i])
              else Take(x.candidates, x.params, x.cites, TakenOf(x, s, order[..i]), order[i])
  {
    KeepMore(order, i, x.candidates.Keys - Members(x.conflicts));
  }

  /** Passing over the conflict members in the ranked candidates gives the ranked others. */
  lemma OthersAreKept(x: Inputs, order: seq<Key>)
    requires order == Ranked(AllItems(x), x.candidates.Keys)
    ensures Keep(order, x.candidates.Keys - Members(x.conflicts)) == Others(x)
  {
    var loose := x.candidates.Keys - Members(x.conflicts);
    RankingStrictTotal(AllItems(x));
    KeepSorted(Ranking(AllItems(x)), order, loose);
    ArrangedIs(Ranking(AllItems(x)), loose, Keep(order, loose));
  }

  method SortedMissing(s: Selection, c: Conflict) returns (r: seq<Key>)
    ensures r == Missing(s, c)
    ensures forall k :: k in r ==> k in c.members
  {
    StrLessStrictTotal();
    r := Sorted(StrLess, c.members - s.keys);
    ArrangedIs(StrLess, c.members - s.keys, r);
  }

  /** At every stage the live sets are conflicts that evaluate found, so none of them is empty. */
  lemma SetsHaveMembers(x: Inputs)
    requires InputsOk(x)
    ensures AdmitSets(x.candidates, x.params, Nothing(x.conflicts), AdmissionOrder(x)).live <= x.conflicts
    ensures Selected(x).live <= x.conflicts && Capped(x).live <= x.conflicts
    ensures Fallback(x, Capped(x)).live <= x.conflicts
    ensures forall c :: c in x.conflicts ==> c.members != {}
  {
    SelectedFacts(x);
    CappedSound(x);
    FallbackSound(x);
    AdmitSetsFacts(x.candidates, x.params, x.conflicts, AdmissionOrder(x));
  }

  lemma {:induction false} AddRowsLive(pool: Pool, s: Selection, ks: seq<Key>)
    requires forall k :: k in ks ==> k in pool
    ensures AddRows(pool, s, ks).live == s.live
  {
    if ks != [] {
      AddRowsLive(pool, s, ks[..|ks| - 1]);
    }
  }

  // ---------------------------------------------------------------- raw rows

  lemma {:induction false} EnoughStays(rows: Rows, order: seq<Key>, i: nat, budget: nat)
    requires (forall k :: k in order ==> k in rows) && i <= |order| && (forall k :: k in order[..i] ==> k in rows)
    requires Enough(PickRows(rows, order[..i], budget), budget)
    ensures PickRows(rows, order, budget) == PickRows(rows, order[..i], budget)
  {
    if i < |order| {
      assert order[..|order| - 1][..i] == order[..i];
      EnoughStays(rows, order[..|order| - 1], i, budget);
    } else {
      assert order[..i] == order;
    }
  }

  predicate NoneTwice(order: seq<Key>) { forall i, j :: 0 <= i < j < |order| ==> order[i] != order[j] }

  /** select_raw */
  method SelectRaw(x: Inputs) returns (picked: seq<Key>)
    requires x.rows.Some?
    ensures picked == Picked(x)
    ensures forall k :: k in picked ==> k in AllItems(x)
  {
    var rows := x.rows.value;
    RowRankingStrictTotal(rows);
    var order := Sorted(RowRanking(rows), rows.Keys);
    ArrangedIs(RowRanking(rows), rows.Keys, order);
    DistinctWhenSorted(RowRanking(rows), order);
    picked := PickInOrder(rows, order, x.params.budget(RAW_EVIDENCE));
  }

  method PickInOrder(rows: Rows, order: seq<Key>, budget: nat) returns (picked: seq<Key>)
    requires (forall k :: k in order ==> k in rows) && NoneTwice(order)
    ensures picked == PickRows(rows, order, budget)
  {
    var perGroup: map<Option<string>, nat> := map[];
    picked := [];
    for i := 0 to |order|
      invariant picked == PickRows(rows, order[..i], budget)
      invariant forall g :: Taken(perGroup, g) == |OfGroup(rows, picked, g)|
    {
      var k := order[i];
      assert k in order && order[..i + 1][..i] == order[..i];
      if picked != [] && |picked| >= budget {
        EnoughStays(rows, order, i, budget);
        return;
      }
      if rows[k].item.Some? {
        var g := rows[k].item.value.group;
        if Taken(perGroup, g) < RAW_PER_GROUP {
          NewInGroup(rows, order, i, budget);
          picked := picked + [k];
          perGroup := perGroup[g := Taken(perGroup, g) + 1];
        }
      }
    }
    assert order[..|order|] == order;
  }

  function Taken(perGroup: map<Option<string>, nat>, g: Option<string>): nat {
    if g in perGroup then perGroup[g] else 0
  }

  lemma NewInGroup(rows: Rows, order: seq<Key>, i: nat, budget: nat)
    requires (forall k :: k in order ==> k in rows) && i < |order| && NoneTwice(order)
    requires rows[order[i]].item.Some?
    ensures forall k :: k in order[..i] ==> k in rows
    ensures var before := PickRows(rows, order[..i], budget);
            forall g :: |OfGroup(rows, before + [order[i]], g)| ==
                          |OfGroup(rows, before, g)| + (if g == rows[order[i]].item.value.group then 1 else 0)
  {
    PickedMakeItems(rows, order[..i], budget);
    var before, k := PickRows(rows, order[..i], budget), order[i];
    assert k !in order[..i];
    forall g
      ensures |OfGroup(rows, before + [k], g)| ==
                |OfGroup(rows, before, g)| + (if g == rows[k].item.value.group then 1 else 0)
    {
      OneMoreOfGroup(rows, before, k, g);
    }
  }

  lemma OneMoreOfGroup(rows: Rows, before: seq<Key>, k: Key, g: Option<string>)
    requires k in rows && rows[k].item.Some? && k !in before
    ensures |OfGroup(rows, before + [k], g)| ==
              |OfGroup(rows, before, g)| + (if g == rows[k].item.value.group then 1 else 0)
  {
    assert forall j :: j in before + [k] <==> j in before || j == k;
    var same := g == rows[k].item.value.group;
    assert OfGroup(rows, before + [k], g) == OfGroup(rows, before, g) + if same then {k} else {};
  }
}
