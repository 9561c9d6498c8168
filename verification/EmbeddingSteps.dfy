/** What each step makes of every job and every chunk, told by status, number of claims, owner and vector. */
module EmbeddingSteps {
  import opened EmbeddingJobs
  import opened EmbeddingRuns
  import opened Wrappers

  /** The chunk has exactly one owner, and that one may be used. */
  predicate Usable(t: Table, c: ChunkId) {
    c in t.chunks && match t.chunks[c].owner case Some(o) => o in t.live case None => false
  }

  /** The worker's batch has a row for the job, the job still runs, and no later claim has been made. */
  ghost predicate StillHeld(t: Table, batch: Batch, k: JobKey) {
    && k.model == batch.model && k in t.jobs && t.jobs[k].status.Running?
    && exists r :: r in batch.rows && r.chunk == k.chunk && r.attempt == t.jobs[k].attempts
  }

  lemma HeldIs(t: Table, batch: Batch, k: JobKey)
    ensures HoldsOne(t.jobs, batch, k) <==> StillHeld(t, batch, k)
  {
    if StillHeld(t, batch, k) {
      var r :| r in batch.rows && r.chunk == k.chunk && r.attempt == t.jobs[k].attempts;
      assert r == Row(k.chunk, t.jobs[k].attempts);
    }
    if HoldsOne(t.jobs, batch, k) {
      var r := Row(k.chunk, t.jobs[k].attempts);
      assert r in batch.rows && r.chunk == k.chunk;
    }
  }

  lemma UsableIs(t: Table, c: ChunkId)
    ensures Eligible(t, c) <==> Usable(t, c)
  {
  }

  /** Nothing but jobs changes. */
  ghost predicate OnlyJobs(s: Table, t: Table) {
    t.chunks == s.chunks && t.live == s.live && t.revoked == s.revoked && t.config == s.config
  }

  /** A job that was handed back waits again after its first and its second claim, and has failed after its third. */
  ghost predicate HandedBack(before: Job, after: Job) {
    && after.attempts == before.attempts
    && (after.status.Pending? <==> before.attempts < 3) && (after.status.Failed? <==> before.attempts >= 3)
  }

  /** A failed batch: exactly the jobs still held are handed back. */
  lemma FailMeans(s: State, w: Worker, k: JobKey)
    requires w in s.workers
    ensures var t := After(s, Step.Fail(w)).table;
            && OnlyJobs(s.table, t) && t.jobs.Keys == s.table.jobs.Keys
            && (k in s.table.jobs ==>
                  if StillHeld(s.table, s.workers[w], k) then HandedBack(s.table.jobs[k], t.jobs[k])
                  else t.jobs[k] == s.table.jobs[k])
  {
    HeldIs(s.table, s.workers[w], k);
  }

  /**
   * A finished batch under the configuration it was claimed with: of the jobs still held, those of usable chunks are
   * completed and their chunks get the vector, the others are skipped. Otherwise it is as if it had failed.
   */
  lemma PublishMeans(s: State, w: Worker, k: JobKey, c: ChunkId)
    requires w in s.workers
    ensures var t, batch := After(s, Step.Publish(w)).table, s.workers[w];
            if s.table.config.enabled && s.table.config.model == batch.model then
              && t.jobs.Keys == s.table.jobs.Keys && t.chunks.Keys == s.table.chunks.Keys
              && t.live == s.table.live && t.revoked == s.table.revoked && t.config == s.table.config
              && (k in s.table.jobs ==>
                    t.jobs[k] == if !StillHeld(s.table, batch, k) then s.table.jobs[k]
                                 else if Usable(s.table, k.chunk) then Job(Completed, s.table.jobs[k].attempts)
                                 else Job(Skipped, s.table.jobs[k].attempts))
              && (c in s.table.chunks ==>
                    t.chunks[c] == if StillHeld(s.table, batch, JobKey(c, batch.model)) && Usable(s.table, c)
                                   then Chunk(s.table.chunks[c].owner, Some(batch.model)) else s.table.chunks[c])
            else t == After(s, Step.Fail(w)).table
  {
    HeldIs(s.table, s.workers[w], k);
    HeldIs(s.table, s.workers[w], JobKey(c, s.workers[w].model));
  }

  /** queue_missing: a job for every chosen chunk, fresh if it is new or was over, and untouched otherwise. */
  lemma QueueMeans(s: State, chosen: set<ChunkId>, model: ModelName, k: JobKey)
    ensures var t := After(s, Step.Queue(chosen, model)).table;
            && OnlyJobs(s.table, t)
            && (k in t.jobs <==> k in s.table.jobs || (k.model == model && k.chunk in chosen))
            && (k in t.jobs ==>
                  t.jobs[k] == if k !in s.table.jobs then Job(Pending, 0)
                               else if k.model == model && k.chunk in chosen &&
                                       (s.table.jobs[k].status.Completed? || s.table.jobs[k].status.Skipped?)
                               then Job(Pending, 0)
                               else s.table.jobs[k])
  {
    var d := JobKey(k.chunk, k.model);
    assert d == k;
    assert k in s.table.jobs ==>
        (s.table.jobs[k].status in {Completed, Skipped} <==>
         s.table.jobs[k].status == Completed || s.table.jobs[k].status == Skipped);
  }

  /** A chunk is missing its vector, and its job is new or was over: that is what queue_missing queues and counts. */
  lemma MissingMeans(t: Table, c: ChunkId, model: ModelName)
    ensures Missing(t, c, model) <==>
              Usable(t, c) && (match t.chunks[c].vector case None => true case Some(m) => m != model)
    ensures EmbeddingJobs.Restarts(t, c, model) <==>
              && Missing(t, c, model)
              && (JobKey(c, model) in t.jobs ==>
                    t.jobs[JobKey(c, model)].status.Completed? || t.jobs[JobKey(c, model)].status.Skipped?)
  {
    var k := JobKey(c, model);
    assert k in t.jobs ==>
        (t.jobs[k].status in {Completed, Skipped} <==> t.jobs[k].status == Completed || t.jobs[k].status == Skipped);
  }

  /** The status of a job once abandoned jobs have been handed back and jobs of unusable chunks skipped. */
  function SweptStatus(t: Table, model: ModelName, stale: set<JobKey>, locked: set<JobKey>, k: JobKey): Status
    requires k in t.jobs
  {
    var j := t.jobs[k];
    var recovered :=
      if j.status.Running? && k in stale then (if j.attempts < 3 then Pending else Failed) else j.status;
    if recovered.Pending? && k.model == model && k !in locked && !Usable(t, k.chunk) then Skipped else recovered
  }

  /** A job that may be leased: it waits after the sweep, has been claimed twice at most, and its chunk is usable. */
  predicate Waits(t: Table, model: ModelName, stale: set<JobKey>, locked: set<JobKey>, k: JobKey) {
    && k in t.jobs && k.model == model && SweptStatus(t, model, stale, locked, k).Pending?
    && t.jobs[k].attempts < 3 && Usable(t, k.chunk)
  }

  lemma SweptIs(t: Table, model: ModelName, stale: set<JobKey>, locked: set<JobKey>, k: JobKey)
    ensures Swept(t, model, stale, locked).jobs.Keys == t.jobs.Keys && OnlyJobs(t, Swept(t, model, stale, locked))
    ensures k in t.jobs ==>
              Swept(t, model, stale, locked).jobs[k] ==
                Job(SweptStatus(t, model, stale, locked, k), t.jobs[k].attempts)
    ensures Claimable(Swept(t, model, stale, locked), model, k) <==> Waits(t, model, stale, locked, k)
  {
    var recovered := t.(jobs := Recovered(t.jobs, stale));
    UsableIs(t, k.chunk);
    assert Eligible(recovered, k.chunk) <==> Usable(t, k.chunk);
  }

  /** A claim: every leased job waited and runs under its next number; the others are only swept. */
  lemma ClaimMeans(s: State, w: Worker, batch: Batch, stale: set<JobKey>, locked: set<JobKey>, k: JobKey)
    requires Enabled(s, Step.Claim(w, batch, stale, locked))
    ensures var t := After(s, Step.Claim(w, batch, stale, locked)).table;
            && OnlyJobs(s.table, t) && t.jobs.Keys == s.table.jobs.Keys
            && (k in s.table.jobs ==>
                  if k.model == batch.model && exists r :: r in batch.rows && r.chunk == k.chunk then
                    Waits(s.table, batch.model, stale, locked, k)
                    && t.jobs[k] == Job(Running, s.table.jobs[k].attempts + 1)
                  else t.jobs[k] == Job(SweptStatus(s.table, batch.model, stale, locked, k), s.table.jobs[k].attempts))
    ensures forall r :: r in batch.rows ==>
              JobKey(r.chunk, batch.model) in s.table.jobs &&
              r.attempt == s.table.jobs[JobKey(r.chunk, batch.model)].attempts + 1
  {
    SweptIs(s.table, batch.model, stale, locked, k);
    assert k in Keys(batch) <==> k.model == batch.model && exists r :: r in batch.rows && r.chunk == k.chunk by {
      if k.model == batch.model && exists r :: r in batch.rows && r.chunk == k.chunk {
        var r :| r in batch.rows && r.chunk == k.chunk;
        assert JobKey(r.chunk, batch.model) == k;
      }
    }
    forall r | r in batch.rows
      ensures JobKey(r.chunk, batch.model) in s.table.jobs &&
              r.attempt == s.table.jobs[JobKey(r.chunk, batch.model)].attempts + 1
    {
      SweptIs(s.table, batch.model, stale, locked, JobKey(r.chunk, batch.model));
    }
  }

  /** Revocation: the owners are unusable for good; their chunks lose the vector and their jobs are skipped. */
  lemma WithdrawMeans(s: State, owners: set<Owner>, k: JobKey, c: ChunkId)
    ensures var t := After(s, Step.Withdraw(owners)).table;
            && (forall o :: o in t.live <==> o in s.table.live && o !in owners)
            && (forall o :: o in t.revoked <==> o in s.table.revoked || o in owners)
            && t.config == s.table.config
            && t.jobs.Keys == s.table.jobs.Keys && t.chunks.Keys == s.table.chunks.Keys
            && (k in s.table.jobs ==>
                  t.jobs[k] == if OwnedBy(s.table, owners, k.chunk) then Job(Skipped, s.table.jobs[k].attempts)
                               else s.table.jobs[k])
            && (c in s.table.chunks ==>
                  t.chunks[c] == if OwnedBy(s.table, owners, c) then Chunk(s.table.chunks[c].owner, None)
                                 else s.table.chunks[c])
  {
  }

  predicate OwnedBy(t: Table, owners: set<Owner>, c: ChunkId) {
    c in t.chunks && match t.chunks[c].owner case Some(o) => o in owners case None => false
  }

  // ---------------------------------------------------------------- the batch of a claim

  /** Any limit gives a batch of 1 to 512 rows, and one in that range is kept. */
  lemma BatchSizeMeans(limit: int)
    ensures 1 <= BatchSize(limit) <= 512
    ensures limit < 1 ==> BatchSize(limit) == 1
    ensures limit > 512 ==> BatchSize(limit) == 512
    ensures 1 <= limit <= 512 ==> BatchSize(limit) == limit
  {
  }

  /** The waiting jobs before a place in the order of creation that no other transaction has locked. */
  ghost function WaitingBefore(t: Table, model: ModelName, stale: set<JobKey>, locked: set<JobKey>, order: seq<JobKey>,
                               i: nat): set<int>
    requires i <= |order|
  {
    set j | 0 <= j < i && order[j] !in locked && Waits(t, model, stale, locked, order[j])
  }

  lemma {:induction false} WaitingCounted(t: Table, model: ModelName, stale: set<JobKey>, locked: set<JobKey>,
                                          order: seq<JobKey>)
    ensures |Waiting(Swept(t, model, stale, locked), model, locked, order)| ==
            |WaitingBefore(t, model, stale, locked, order, |order|)|
  {
    if order != [] {
      var most, k := order[..|order| - 1], order[|order| - 1];
      WaitingCounted(t, model, stale, locked, most);
      SweptIs(t, model, stale, locked, k);
      OneMoreWaiting(t, model, stale, locked, order, most, k);
    }
  }

  lemma OneMoreWaiting(t: Table, model: ModelName, stale: set<JobKey>, locked: set<JobKey>, order: seq<JobKey>,
                       most: seq<JobKey>, k: JobKey)
    requires order == most + [k]
    ensures |WaitingBefore(t, model, stale, locked, order, |order|)| ==
              |WaitingBefore(t, model, stale, locked, most, |most|)| +
                if k !in locked && Waits(t, model, stale, locked, k) then 1 else 0
  {
    var before := WaitingBefore(t, model, stale, locked, most, |most|);
    var after := WaitingBefore(t, model, stale, locked, order, |order|);
    assert forall j :: 0 <= j < |most| ==> order[j] == most[j];
    assert order[|most|] == k;
    assert after == if k !in locked && Waits(t, model, stale, locked, k) then before + {|most|} else before;
  }

  lemma {:induction false} WaitingPrefix(t: Table, model: ModelName, locked: set<JobKey>, order: seq<JobKey>, i: nat)
    requires i <= |order|
    ensures |Waiting(t, model, locked, order[..i])| <= |Waiting(t, model, locked, order)|
    ensures Waiting(t, model, locked, order[..i]) ==
              Waiting(t, model, locked, order)[..|Waiting(t, model, locked, order[..i])|]
  {
    if i == |order| {
      assert order[..i] == order;
    } else {
      assert order[..|order| - 1][..i] == order[..i];
      WaitingPrefix(t, model, locked, order[..|order| - 1], i);
    }
  }

  /**
   * A job is in the batch exactly if it waits unlocked and fewer such jobs than the batch has room for come before it.
   */
  lemma BatchMeans(t: Table, model: ModelName, stale: set<JobKey>, locked: set<JobKey>, order: seq<JobKey>, limit: int,
                   i: nat)
    requires NoneTwice(order) && i < |order|
    ensures order[i] in FirstOf(Waiting(Swept(t, model, stale, locked), model, locked, order), BatchSize(limit)) <==>
              && order[i] !in locked && Waits(t, model, stale, locked, order[i])
              && |WaitingBefore(t, model, stale, locked, order, i)| < BatchSize(limit)
  {
    var swept := Swept(t, model, stale, locked);
    var all, before := Waiting(swept, model, locked, order), Waiting(swept, model, locked, order[..i]);
    var upto := Waiting(swept, model, locked, order[..i + 1]);
    SweptIs(t, model, stale, locked, order[i]);
    WaitingOnce(swept, model, locked, order);
    WaitingPrefix(swept, model, locked, order, i);
    WaitingPrefix(swept, model, locked, order, i + 1);
    WaitingCounted(t, model, stale, locked, order[..i]);
    assert WaitingBefore(t, model, stale, locked, order[..i], i) == WaitingBefore(t, model, stale, locked, order, i);
    assert order[..i + 1][..i] == order[..i] && order[..i + 1][i] == order[i];
    if order[i] !in locked && Waits(t, model, stale, locked, order[i]) {
      assert upto == before + [order[i]] && all[|before|] == upto[|before|];
    }
  }
}
