/** Embedding jobs: the queue, the leases that workers claim, the publish fence, and lifecycle invalidation. */
module EmbeddingJobs {
  import opened Wrappers

  type ChunkId = nat
  type Owner = nat
  type ModelName = string

  const MAX_ATTEMPTS := 3
  const MAX_BATCH := 512

  datatype Status = Pending | Running | Completed | Failed | Skipped
  datatype Job = Job(status: Status, attempts: nat)
  datatype JobKey = JobKey(chunk: ChunkId, model: ModelName)

  /**
   * `owner` is None for a chunk that does not have exactly one owner; `vector` names the model that made the vector.
   */
  datatype Chunk = Chunk(owner: Option<Owner>, vector: Option<ModelName>)
  datatype Config = Config(enabled: bool, model: ModelName)

  /** `live` holds the owners whose status lets their chunks be used, `revoked` those whose sources were revoked. */
  datatype Table = Table(
    chunks: map<ChunkId, Chunk>,
    live: set<Owner>,
    revoked: set<Owner>,
    jobs: map<JobKey, Job>,
    config: Config)

  datatype Row = Row(chunk: ChunkId, attempt: nat)
  datatype Batch = Batch(model: ModelName, rows: seq<Row>)

  // ---------------------------------------------------------------- what the steps do, row by row

  predicate Eligible(t: Table, c: ChunkId) {
    c in t.chunks && t.chunks[c].owner.Some? && t.chunks[c].owner.value in t.live
  }

  predicate Missing(t: Table, c: ChunkId, model: ModelName) {
    Eligible(t, c) && t.chunks[c].vector != Some(model)
  }

  /** A new or finished job starts over; a live one is left alone. */
  predicate Queues(jobs: map<JobKey, Job>, chosen: set<ChunkId>, model: ModelName, k: JobKey) {
    k.model == model && k.chunk in chosen && (k in jobs ==> jobs[k].status in {Completed, Skipped})
  }

  function Queued(jobs: map<JobKey, Job>, chosen: set<ChunkId>, model: ModelName): map<JobKey, Job> {
    map k | k in jobs.Keys + (set c | c in chosen :: JobKey(c, model)) ::
      if Queues(jobs, chosen, model, k) then Job(Pending, 0) else jobs[k]
  }

  /** Back to the queue, or failed for good once the attempts are used up. */
  function Released(j: Job): Job { j.(status := if j.attempts < MAX_ATTEMPTS then Pending else Failed) }

  function Recovered(jobs: map<JobKey, Job>, stale: set<JobKey>): map<JobKey, Job> {
    map k | k in jobs :: if k in stale && jobs[k].status == Running then Released(jobs[k]) else jobs[k]
  }

  function IneligibleSkipped(t: Table, model: ModelName, locked: set<JobKey>): map<JobKey, Job> {
    map k | k in t.jobs ::
      if t.jobs[k].status == Pending && k.model == model && k !in locked && !Eligible(t, k.chunk)
      then t.jobs[k].(status := Skipped)
      else t.jobs[k]
  }

  predicate Claimable(t: Table, model: ModelName, k: JobKey) {
    && k in t.jobs && k.model == model && t.jobs[k].status == Pending && t.jobs[k].attempts < MAX_ATTEMPTS
    && Eligible(t, k.chunk)
  }

  function Leased(jobs: map<JobKey, Job>, picked: set<JobKey>): map<JobKey, Job> {
    map k | k in jobs :: if k in picked then Job(Running, jobs[k].attempts + 1) else jobs[k]
  }

  /** The table as _claim sees it when it picks jobs. */
  function Swept(t: Table, model: ModelName, stale: set<JobKey>, locked: set<JobKey>): Table {
    var recovered := t.(jobs := Recovered(t.jobs, stale));
    recovered.(jobs := IneligibleSkipped(recovered, model, locked))
  }

  /** The claimable jobs that SKIP LOCKED does not pass over, in order. */
  function Waiting(t: Table, model: ModelName, locked: set<JobKey>, order: seq<JobKey>): (r: seq<JobKey>)
    ensures forall k :: k in r <==> k in order && k !in locked && Claimable(t, model, k)
  {
    if order == [] then []
    else
      var before, k := Waiting(t, model, locked, order[..|order| - 1]), order[|order| - 1];
      if k !in locked && Claimable(t, model, k) then before + [k] else before
  }

  function FirstOf<T>(s: seq<T>, n: nat): seq<T> { if |s| <= n then s else s[..n] }

  /** max(1, min(limit, 512)) */
  function BatchSize(limit: int): nat { if limit < 1 then 1 else if limit > MAX_BATCH then MAX_BATCH else limit }

  /** The rows handed to the worker, each with the number of its claim. */
  function RowsOf(t: Table, picked: seq<JobKey>): seq<Row>
    requires forall k :: k in picked ==> k in t.jobs
  {
    seq(|picked|, i requires 0 <= i < |picked| => Row(picked[i].chunk, t.jobs[picked[i]].attempts + 1))
  }

  predicate NoneTwice<T(==)>(s: seq<T>) { forall i, j :: 0 <= i < j < |s| ==> s[i] != s[j] }

  lemma {:induction false} WaitingOnce(t: Table, model: ModelName, locked: set<JobKey>, order: seq<JobKey>)
    requires NoneTwice(order)
    ensures NoneTwice(Waiting(t, model, locked, order))
  {
    if order != [] {
      WaitingOnce(t, model, locked, order[..|order| - 1]);
    }
  }

  /** What a claim leases is held by the rows it returns, and no chunk is in two of them. */
  lemma RowsHold(t: Table, model: ModelName, picked: seq<JobKey>)
    requires NoneTwice(picked) && forall k :: k in picked ==> k in t.jobs && Claimable(t, model, k)
    ensures var rows, jobs := RowsOf(t, picked), Leased(t.jobs, set k | k in picked);
            && (forall r :: r in rows ==> Holds(jobs, JobKey(r.chunk, model), r.attempt))
            && (forall i, j :: 0 <= i < j < |rows| ==> rows[i].chunk != rows[j].chunk)
  {
    var rows := RowsOf(t, picked);
    forall i | 0 <= i < |rows| ensures picked[i] == JobKey(rows[i].chunk, model) {
      assert picked[i] in picked;
    }
  }

  /** The row still holds the lease it was claimed with. */
  predicate Holds(jobs: map<JobKey, Job>, k: JobKey, attempt: nat) {
    k in jobs && jobs[k].status == Running && jobs[k].attempts == attempt
  }

  predicate HoldsOne(jobs: map<JobKey, Job>, batch: Batch, k: JobKey) {
    k.model == batch.model && k in jobs && jobs[k].status == Running && Row(k.chunk, jobs[k].attempts) in batch.rows
  }

  function AfterFailure(jobs: map<JobKey, Job>, batch: Batch): map<JobKey, Job> {
    map k | k in jobs :: if HoldsOne(jobs, batch, k) then Released(jobs[k]) else jobs[k]
  }

  predicate Publishes(t: Table, batch: Batch, c: ChunkId) {
    c in t.chunks && HoldsOne(t.jobs, batch, JobKey(c, batch.model)) && Eligible(t, c)
  }

  /** Every row that holds its lease is completed with its vector, or skipped if its owner may no longer be used. */
  function Published(t: Table, batch: Batch): Table {
    t.(chunks := map c | c in t.chunks ::
                   if Publishes(t, batch, c) then t.chunks[c].(vector := Some(batch.model)) else t.chunks[c],
       jobs := map k | k in t.jobs ::
                 if HoldsOne(t.jobs, batch, k) then
                   t.jobs[k].(status := if Eligible(t, k.chunk) then Completed else Skipped)
                 else t.jobs[k])
  }

  predicate Owned(t: Table, owners: set<Owner>, c: ChunkId) {
    c in t.chunks && t.chunks[c].owner.Some? && t.chunks[c].owner.value in owners
  }

  /** Source revocation marks its owners and, with invalidate_chunks, leaves them no vector and no job to run. */
  function Revoked(t: Table, owners: set<Owner>): Table {
    Invalidated(t.(live := t.live - owners, revoked := t.revoked + owners), owners)
  }

  /** invalidate_chunks: no vectors left, and no job of any model left to run. */
  function Invalidated(t: Table, owners: set<Owner>): Table {
    t.(chunks := map c | c in t.chunks :: if Owned(t, owners, c) then t.chunks[c].(vector := None) else t.chunks[c],
       jobs := map k | k in t.jobs :: if Owned(t, owners, k.chunk) then t.jobs[k].(status := Skipped) else t.jobs[k])
  }

  // ---------------------------------------------------------------- the service

  class EmbeddingService {
    var chunks: map<ChunkId, Chunk>
    var live: set<Owner>
    var revoked: set<Owner>
    var jobs: map<JobKey, Job>
    var config: Config

    function Now(): Table
      reads this
    {
      Table(chunks, live, revoked, jobs, config)
    }

    method QueueMissing(model: ModelName) returns (queued: set<ChunkId>)
      modifies this`jobs
      ensures queued == set c | c in chunks && Restarts(old(Now()), c, model)
      ensures jobs == Queued(old(jobs), (set c | c in chunks && Missing(old(Now()), c, model)), model)
    {
      ghost var before := Now();
      queued := {};
      var left := chunks.Keys;
      while left != {}
        invariant left <= chunks.Keys && Now() == before.(jobs := jobs)
        invariant queued == set c | c in chunks.Keys - left && Restarts(before, c, model)
        invariant jobs == WithRestarted(before.jobs, queued, model)
      {
        var c :| c in left;
        var k := JobKey(c, model);
        if Missing(Now(), c, model) && (k !in jobs || jobs[k].status in {Completed, Skipped}) {
          RestartedMore(before.jobs, queued, model, c);
          jobs := jobs[k := Job(Pending, 0)];
          queued := queued + {c};
        }
        left := left - {c};
      }
      RestartedIsQueued(before, model, queued);
    }

    /**
     * `stale` are the running jobs that the clock calls abandoned, `locked` the rows that SKIP LOCKED passes over, and
     * `order` lists the jobs by creation. The batch is the first of the waiting jobs, and it is full or leaves none.
     */
    method Claim(model: ModelName, limit: int, stale: set<JobKey>, locked: set<JobKey>, order: seq<JobKey>)
      returns (batch: Batch, ghost picked: seq<JobKey>)
      requires NoneTwice(order) && forall k :: k in jobs <==> k in order
      modifies this`jobs
      ensures var swept := Swept(old(Now()), model, stale, locked);
              && picked == FirstOf(Waiting(swept, model, locked, order), BatchSize(limit))
              && batch == Batch(model, RowsOf(swept, picked))
              && jobs == Leased(swept.jobs, set k | k in picked)
              && (|picked| < BatchSize(limit) ==>
                    forall k :: k in swept.jobs && k !in locked && Claimable(swept, model, k) ==> k in picked)
      ensures forall r :: r in batch.rows ==> Holds(jobs, JobKey(r.chunk, model), r.attempt)
      ensures forall i, j :: 0 <= i < j < |batch.rows| ==> batch.rows[i].chunk != batch.rows[j].chunk
    {
      jobs := Recovered(jobs, stale);
      jobs := IneligibleSkipped(Now(), model, locked);
      var rows := SelectWaiting(Now(), model, locked, order, BatchSize(limit));
      picked := rows;
      ghost var swept := Now();
      WaitingOnce(swept, model, locked, order);
      RowsHold(swept, model, rows);
      batch := Batch(model, RowsOf(Now(), rows));
      jobs := Leased(jobs, set k | k in rows);
    }

    method Fail(batch: Batch)
      modifies this`jobs
      ensures jobs == AfterFailure(old(jobs), batch)
    {
      for i := 0 to |batch.rows|
        invariant jobs.Keys == old(jobs).Keys
        invariant forall k :: k in jobs ==>
                                jobs[k] == if HoldsOne(old(jobs), Batch(batch.model, batch.rows[..i]), k)
                                           then Released(old(jobs)[k]) else old(jobs)[k]
      {
        var k := JobKey(batch.rows[i].chunk, batch.model);
        assert batch.rows[..i + 1] == batch.rows[..i] + [batch.rows[i]];
        if Holds(jobs, k, batch.rows[i].attempt) {
          jobs := jobs[k := Released(jobs[k])];
        }
      }
      assert batch.rows[..|batch.rows|] == batch.rows;
    }

    /**
     * The publishing transaction of run_pending. Leases and gates are read once, under locks, before the loop; a
     * changed configuration publishes nothing and hands the leases back.
     */
    method Publish(batch: Batch) returns (published: bool)
      modifies this`chunks, this`jobs
      ensures published <==> config.enabled && config.model == batch.model
      ensures Now() ==
                if published then Published(old(Now()), batch) else old(Now()).(jobs := AfterFailure(old(jobs), batch))
    {
      if !config.enabled || config.model != batch.model {
        Fail(batch);
        return false;
      }
      var before := Now();
      for i := 0 to |batch.rows|
        invariant Now() == Published(before, Batch(batch.model, batch.rows[..i]))
      {
        var row := batch.rows[i];
        var k := JobKey(row.chunk, batch.model);
        OneMore(before, batch.model, batch.rows[..i], row);
        assert batch.rows[..i + 1] == batch.rows[..i] + [row];
        if Holds(before.jobs, k, row.attempt) {
          if Eligible(before, row.chunk) {
            chunks := chunks[row.chunk := before.chunks[row.chunk].(vector := Some(batch.model))];
            jobs := jobs[k := before.jobs[k].(status := Completed)];
          } else {
            jobs := jobs[k := before.jobs[k].(status := Skipped)];
          }
        }
      }
      assert batch.rows[..|batch.rows|] == batch.rows;
      published := true;
    }

    /** Revocation: the owners are marked for good and, in the same transaction, their chunks are invalidated. */
    method Withdraw(owners: set<Owner>)
      modifies this`chunks, this`jobs, this`live, this`revoked
      ensures Now() == Revoked(old(Now()), owners)
      ensures forall c :: Owned(Now(), owners, c) ==> chunks[c].vector.None?
    {
      live, revoked := live - owners, revoked + owners;
      ghost var before := Now();
      var hit := set c | c in chunks && chunks[c].owner.Some? && chunks[c].owner.value in owners;
      jobs := map k | k in jobs :: if k.chunk in hit then jobs[k].(status := Skipped) else jobs[k];
      ClearVectors(hit);
      assert jobs == Invalidated(before, owners).jobs && chunks == Invalidated(before, owners).chunks;
    }

    method ClearVectors(hit: set<ChunkId>)
      requires hit <= chunks.Keys
      modifies this`chunks
      ensures chunks == map c | c in old(chunks) ::
                          if c in hit then old(chunks)[c].(vector := None) else old(chunks)[c]
    {
      var left := hit;
      while left != {}
        invariant left <= hit && chunks.Keys == old(chunks).Keys
        invariant forall c :: c in chunks ==>
                                chunks[c] == if c in hit - left then old(chunks)[c].(vector := None) else old(chunks)[c]
      {
        var c :| c in left;
        chunks := chunks[c := chunks[c].(vector := None)];
        left := left - {c};
      }
    }
  }

  /** The loop of the claiming query over the jobs by creation. */
  method SelectWaiting(t: Table, model: ModelName, locked: set<JobKey>, order: seq<JobKey>, size: nat)
    returns (picked: seq<JobKey>)
    ensures picked == FirstOf(Waiting(t, model, locked, order), size)
  {
    picked := [];
    for i := 0 to |order|
      invariant picked == FirstOf(Waiting(t, model, locked, order[..i]), size)
    {
      assert order[..i + 1][..i] == order[..i];
      if |picked| < size && order[i] !in locked && Claimable(t, model, order[i]) {
        picked := picked + [order[i]];
      }
    }
    assert order[..|order|] == order;
  }

  // ---------------------------------------------------------------- what queue_missing restarts

  /** The chunk needs a vector, and its job is new or finished. */
  predicate Restarts(t: Table, c: ChunkId, model: ModelName) {
    Missing(t, c, model) && Queues(t.jobs, {c}, model, JobKey(c, model))
  }

  function WithRestarted(jobs: map<JobKey, Job>, chosen: set<ChunkId>, model: ModelName): map<JobKey, Job> {
    map k | k in jobs.Keys + (set c | c in chosen :: JobKey(c, model)) ::
      if k.model == model && k.chunk in chosen then Job(Pending, 0) else jobs[k]
  }

  lemma RestartedMore(jobs: map<JobKey, Job>, chosen: set<ChunkId>, model: ModelName, c: ChunkId)
    ensures WithRestarted(jobs, chosen + {c}, model) ==
              WithRestarted(jobs, chosen, model)[JobKey(c, model) := Job(Pending, 0)]
  {
  }

  lemma RestartedIsQueued(t: Table, model: ModelName, restarted: set<ChunkId>)
    requires restarted == set c | c in t.chunks && Restarts(t, c, model)
    ensures WithRestarted(t.jobs, restarted, model) ==
              Queued(t.jobs, (set c | c in t.chunks && Missing(t, c, model)), model)
  {
    var chosen := set c | c in t.chunks && Missing(t, c, model);
    forall k: JobKey
      ensures k.model == model && k.chunk in restarted <==> k.chunk in chosen && Queues(t.jobs, chosen, model, k)
    {
    }
  }

  lemma OneMore(t: Table, model: ModelName, rows: seq<Row>, row: Row)
    ensures var k := JobKey(row.chunk, model);
            var done := Published(t, Batch(model, rows));
            Published(t, Batch(model, rows + [row])) ==
              if !Holds(t.jobs, k, row.attempt) then done
              else if Eligible(t, row.chunk) then
                done.(chunks := done.chunks[row.chunk := t.chunks[row.chunk].(vector := Some(model))],
                      jobs := done.jobs[k := t.jobs[k].(status := Completed)])
              else done.(jobs := done.jobs[k := t.jobs[k].(status := Skipped)])
  {
    var fewer, more := Batch(model, rows), Batch(model, rows + [row]);
    assert forall r :: r in more.rows <==> r in fewer.rows || r == row;
    forall k | k in t.jobs
      ensures HoldsOne(t.jobs, more, k) <==>
                HoldsOne(t.jobs, fewer, k) || (k == JobKey(row.chunk, model) && Holds(t.jobs, k, row.attempt))
    {
    }
  }
}
