/**
 * The whole composition: conflict sets, main loop, total cap, raw fallback, second cap, and the trim to the byte limit.
 */
module PackCompose {
  import opened Order
  import opened Sorting
  import opened PackModel
  import opened PackSettle
  import opened PackSelect
  import opened Wrappers

  const RAW_PER_GROUP := 2

  /** A raw row: its lexical score, and the item made of it unless the row is dropped. */
  datatype RawRow = RawRow(score: real, item: Option<Item>)
  type Rows = map<Key, RawRow>

  /**
   * What compose works on once evaluate is done. `rows` is None when the raw query fails. `bytes` is the length of the
   * encoded pack without the digits of its token count.
   */
  datatype Inputs = Inputs(
    candidates: Pool,
    conflicts: set<Conflict>,
    name: Naming,
    cites: Citations,
    params: Params,
    rawAllowed: bool,
    rows: Option<Rows>,
    bytes: Selection -> nat)

  function RawItems(rows: Rows): Pool {
    map k | k in rows && rows[k].item.Some? :: rows[k].item.value
  }

  function AllItems(x: Inputs): Pool {
    if x.rows.Some? then RawItems(x.rows.value) + x.candidates else x.candidates
  }

  /**
   * Keys are distinct across candidates and raw rows, raw rows are raw, candidates are not, and evaluate has been here.
   */
  ghost predicate InputsOk(x: Inputs) {
    && KeysDiffer(x.name, x.conflicts) && Demoted(x.candidates, x.conflicts)
    && (forall k :: k in x.candidates ==> x.candidates[k].section != RAW_EVIDENCE)
    && (x.rows.Some? ==>
          && x.rows.value.Keys !! x.candidates.Keys
          && forall k :: k in RawItems(x.rows.value) ==> RawItems(x.rows.value)[k].section == RAW_EVIDENCE)
  }

  // ---------------------------------------------------------------- settling and the total cap

  ghost function SettleAll(s: Selection): Selection {
    var left := SettledLive(s.kept, s.live);
    assert left <= s.live;
    FewerThan(left, s.live);
    s.(kept := SettledKept(s.kept, s.live), live := left,
       diag := s.diag.(conflictSets := s.diag.conflictSets + (|s.live| - |left|)))
  }

  lemma FewerThan<T>(a: set<T>, b: set<T>)
    requires a <= b
    ensures |a| <= |b|
  {
    assert b == a + (b - a);
  }

  ghost function Ranked(pool: Pool, keys: set<Key>): (r: seq<Key>)
    ensures SortedBy(Ranking(pool), r) && Elements(r, keys) && |r| == |keys|
  {
    RankingStrictTotal(pool);
    Arranged(Ranking(pool), keys)
  }

  /** The first n items, and the others counted. */
  function Shortened(s: Selection, n: nat): Selection
    requires n <= |s.kept|
  {
    s.(kept := s.kept[..n], diag := s.diag.(totalItems := s.diag.totalItems + (|s.kept| - n)))
  }

  ghost function Cap(pool: Pool, params: Params, s: Selection): Selection {
    var ranked := s.(kept := Ranked(pool, KeySet(s.kept)));
    if |ranked.kept| <= params.maxItems then ranked else SettleAll(Shortened(ranked, params.maxItems))
  }

  // ---------------------------------------------------------------- raw fallback

  predicate RowAbove(rows: Rows, a: Key, b: Key) {
    if a in rows && b in rows && rows[a].score != rows[b].score then rows[a].score > rows[b].score
    else if (a in rows) != (b in rows) then a in rows
    else StrLess(a, b)
  }

  function RowRanking(rows: Rows): (Key, Key) -> bool { (a, b) => RowAbove(rows, a, b) }

  lemma RowRankingStrictTotal(rows: Rows)
    ensures StrictTotal(RowRanking(rows))
  {
    StrLessStrictTotal();
  }

  function OfGroup(rows: Rows, ks: seq<Key>, group: Option<string>): set<Key> {
    set k | k in ks && k in rows && rows[k].item.Some? && rows[k].item.value.group == group
  }

  /** The limit is looked at only after a row has been taken. */
  predicate Enough(picked: seq<Key>, budget: nat) { picked != [] && |picked| >= budget }

  /** select_raw: the first rows that make an item, at most two of one group, until the budget is reached. */
  function PickRows(rows: Rows, order: seq<Key>, budget: nat): seq<Key>
    requires forall k :: k in order ==> k in rows
  {
    if order == [] then []
    else
      var k := order[|order| - 1];
      var before := PickRows(rows, order[..|order| - 1], budget);
      if Enough(before, budget) || rows[k].item.None? ||
        |OfGroup(rows, before, rows[k].item.value.group)| >= RAW_PER_GROUP then before
      else before + [k]
  }

  function AddRow(pool: Pool, s: Selection, k: Key): Selection
    requires k in pool
  {
    if k in s.keys || pool[k].digest in s.digests then s.(diag := s.diag.(deduplicated := s.diag.deduplicated + 1))
    else Seen(s, k, pool[k].digest).(kept := s.kept + [k])
  }

  function AddRows(pool: Pool, s: Selection, ks: seq<Key>): Selection
    requires forall k :: k in ks ==> k in pool
  {
    if ks == [] then s else AddRow(pool, AddRows(pool, s, ks[..|ks| - 1]), ks[|ks| - 1])
  }

  lemma {:induction false} PickedMakeItems(rows: Rows, order: seq<Key>, budget: nat)
    requires forall k :: k in order ==> k in rows
    ensures forall k :: k in PickRows(rows, order, budget) ==> k in order && k in RawItems(rows)
  {
    if order != [] {
      PickedMakeItems(rows, order[..|order| - 1], budget);
    }
  }

  ghost function Picked(x: Inputs): (r: seq<Key>)
    requires x.rows.Some?
    ensures forall k :: k in r ==> k in RawItems(x.rows.value)
  {
    RowRankingStrictTotal(x.rows.value);
    var order := Arranged(RowRanking(x.rows.value), x.rows.value.Keys);
    PickedMakeItems(x.rows.value, order, x.params.budget(RAW_EVIDENCE));
    PickRows(x.rows.value, order, x.params.budget(RAW_EVIDENCE))
  }

  /** The structural trigger: nothing from the primary sections is left. */
  predicate NeedsRaw(x: Inputs, s: Selection) {
    x.rawAllowed && forall k :: k in s.kept && k in x.candidates ==> !Primary(x.candidates[k].section)
  }

  ghost function Fallback(x: Inputs, s: Selection): Selection {
    if NeedsRaw(x, s) && x.rows.Some? then Cap(AllItems(x), x.params, AddRows(AllItems(x), s, Picked(x))) else s
  }

  /** What the diagnostics say of the raw fallback. */
  datatype RawStatus = NotNeeded | Disabled | Failed | Used | NoResults

  ghost function RawStatusOf(x: Inputs, s: Selection): RawStatus {
    if !x.rawAllowed then Disabled
    else if !NeedsRaw(x, s) then NotNeeded
    else if x.rows.None? then Failed
    else if |AddRows(AllItems(x), s, Picked(x)).kept| > |s.kept| then Used
    else NoResults
  }

  // ---------------------------------------------------------------- the trim

  predicate TooLong(x: Inputs, s: Selection) { s.kept != [] && x.bytes(s) + 4 > x.params.maxPackBytes }

  /** The lowest priority item goes, and with it whatever can no longer be shown whole. */
  ghost function Pop(s: Selection): Selection
    requires s.kept != []
  {
    SettleAll(s.(kept := s.kept[..|s.kept| - 1], diag := s.diag.(packBytes := s.diag.packBytes + 1)))
  }

  ghost function Trim(x: Inputs, s: Selection): Selection
    decreases |s.kept|
  {
    if TooLong(x, s) then Trim(x, Pop(s)) else s
  }

  // ---------------------------------------------------------------- compose

  /**
   * The order in which the conflict sets are tried: by the least tier among the members, by reason, by conflict key.
   */
  ghost function AdmissionOrder(x: Inputs): (r: seq<Conflict>)
    requires InputsOk(x)
    ensures Elements(r, x.conflicts) && |r| == |x.conflicts|
    ensures forall i, j :: 0 <= i < j < |r| ==> r[i] != r[j]
  {
    AdmissionStrictTotal(x.candidates, x.name);
    DistinctWhenSorted(Admission(x.candidates, x.name), Arranged(Admission(x.candidates, x.name), x.conflicts));
    Arranged(Admission(x.candidates, x.name), x.conflicts)
  }

  /** After conflict admission: Members bypass the text deduplication. */
  ghost function Admitted(x: Inputs): Selection
    requires InputsOk(x)
  {
    SettleAll(AdmitSets(x.candidates, x.params, Nothing(x.conflicts), AdmissionOrder(x)))
  }

  /** The candidates outside every conflict, by rank. */
  ghost function Others(x: Inputs): (r: seq<Key>)
    ensures SortedBy(Ranking(AllItems(x)), r) && Elements(r, x.candidates.Keys - Members(x.conflicts))
  {
    Ranked(AllItems(x), x.candidates.Keys - Members(x.conflicts))
  }

  ghost function Selected(x: Inputs): Selection
    requires InputsOk(x)
  {
    TakeAll(x.candidates, x.params, x.cites, Admitted(x), Others(x))
  }

  ghost function Capped(x: Inputs): Selection
    requires InputsOk(x)
  {
    Cap(AllItems(x), x.params, Selected(x))
  }

  ghost function Composed(x: Inputs): Selection
    requires InputsOk(x)
  {
    Trim(x, Fallback(x, Capped(x)))
  }

  // ---------------------------------------------------------------- the encoded size

  function Digits(n: nat): nat { if n < 10 then 1 else 1 + Digits(n / 10) }

  /** The token estimate is taken from the experience pack encoded with the four-digit placeholder. */
  function Tokens(x: Inputs, s: Selection): nat { (x.bytes(s) + 4) / 4 }

  function PackBytes(x: Inputs, s: Selection): nat { x.bytes(s) + Digits(Tokens(x, s)) }

  lemma FourDigits(n: nat)
    ensures Digits(n) <= 4 <==> n < 10000
  {
    assert n / 10 / 10 / 10 == n / 1000 && n / 10 / 10 == n / 100;
    assert Digits(n) == if n < 10 then 1 else 1 + Digits(n / 10);
    assert Digits(n / 10) == if n / 10 < 10 then 1 else 1 + Digits(n / 10 / 10);
    assert Digits(n / 10 / 10) == if n / 10 / 10 < 10 then 1 else 1 + Digits(n / 10 / 10 / 10);
    assert Digits(n / 1000) == if n / 1000 < 10 then 1 else 1 + Digits(n / 1000 / 10);
  }

  lemma {:induction false} TrimStops(x: Inputs, s: Selection)
    ensures !TooLong(x, Trim(x, s))
    decreases |s.kept|
  {
    if TooLong(x, s) {
      TrimStops(x, Pop(s));
    }
  }

  /**
   * A pack that shows anything fits its byte limit, for every limit below 40000 and so for all that a policy may set
   * (32768): the real token count is then never wider than the placeholder.
   */
  lemma PackFits(x: Inputs)
    requires InputsOk(x) && Composed(x).kept != [] && x.params.maxPackBytes < 40000
    ensures PackBytes(x, Composed(x)) <= x.params.maxPackBytes
  {
    TrimStops(x, Fallback(x, Capped(x)));
    FourDigits(Tokens(x, Composed(x)));
  }

  /** What the trim accepts at b bytes without the digits fits the limit once they are written. */
  predicate AcceptedFits(limit: nat, b: nat) { b + 4 <= limit ==> b + Digits((b + 4) / 4) <= limit }

  /** All that the trim accepts fits, whatever its size, exactly for the limits below 40000. */
  lemma AllAcceptedFitExactlyWhen(limit: nat)
    ensures (forall b: nat :: AcceptedFits(limit, b)) <==> limit < 40000
  {
    if limit < 40000 {
      forall b: nat ensures AcceptedFits(limit, b) {
        FourDigits((b + 4) / 4);
      }
    } else {
      FourDigits(limit / 4);
      assert !AcceptedFits(limit, limit - 4);
    }
  }

  /** From 40000 on every limit can be exceeded: by any experience pack that leaves just the room of the placeholder. */
  lemma PackExceedsFrom40000(x: Inputs)
    requires InputsOk(x) && Fallback(x, Capped(x)).kept != [] && x.params.maxPackBytes >= 40000
    requires forall s :: x.bytes(s) == x.params.maxPackBytes - 4
    ensures Composed(x) == Fallback(x, Capped(x)) && PackBytes(x, Composed(x)) > x.params.maxPackBytes
  {
    FourDigits(Tokens(x, Composed(x)));
  }
}
