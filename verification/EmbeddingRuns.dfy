/**
 * Any interleaving of workers, retries, stale recovery, requeueing and lifecycle changes. The epoch of a job counts how
 * often it has been put back to zero attempts; epochs and leases are history that the tables do not hold.
 */
module EmbeddingRuns {
  import opened EmbeddingJobs
  import opened Wrappers

  type Worker = nat

  datatype Lease = Lease(worker: Worker, key: JobKey, epoch: nat, attempt: nat)

  /** `workers` maps every worker that is still encoding to what it claimed. */
  datatype State = State(table: Table, workers: map<Worker, Batch>, epochs: map<JobKey, nat>, leases: set<Lease>)

  /**
   * `chosen` is what queue_missing saw as missing, possibly in a snapshot that is out of date. Withdraw is revocation,
   * the only step that invalidates. Demote is every other loss of eligibility: an item is retired, challenged, rejected
   * or superseded, or loses its support. Restore makes owners eligible again, or for the first time.
   */
  datatype Step =
    | Queue(chosen: set<ChunkId>, model: ModelName)
    | Claim(worker: Worker, batch: Batch, stale: set<JobKey>, locked: set<JobKey>)
    | Publish(worker: Worker)
    | Fail(worker: Worker)
    | Crash(worker: Worker)
    | Withdraw(owners: set<Owner>)
    | Demote(owners: set<Owner>)
    | Restore(owners: set<Owner>)
    | AddChunk(chunk: ChunkId, owner: Option<Owner>)
    | Configure(config: Config)

  function Epoch(s: State, k: JobKey): nat { if k in s.epochs then s.epochs[k] else 0 }

  function Keys(batch: Batch): set<JobKey> { set r | r in batch.rows :: JobKey(r.chunk, batch.model) }

  /** The rows that a worker may claim, each with the number of its claim. */
  ghost predicate MayClaim(s: State, w: Worker, batch: Batch, stale: set<JobKey>, locked: set<JobKey>) {
    var swept := Swept(s.table, batch.model, stale, locked);
    && w !in s.workers && (forall l :: l in s.leases ==> l.worker != w)
    && (forall r :: r in batch.rows ==>
          Claimable(swept, batch.model, JobKey(r.chunk, batch.model))
          && r.attempt == swept.jobs[JobKey(r.chunk, batch.model)].attempts + 1)
  }

  ghost predicate Enabled(s: State, step: Step) {
    match step
    case Queue(chosen, _) => chosen <= s.table.chunks.Keys
    case Claim(w, batch, stale, locked) => MayClaim(s, w, batch, stale, locked)
    case Publish(w) => w in s.workers
    case Fail(w) => w in s.workers
    case Crash(w) => w in s.workers
    case AddChunk(c, _) => c !in s.table.chunks
    case Restore(owners) => owners !! s.table.revoked
    case _ => true
  }

  /** Every job that queue_missing starts over enters its next epoch. */
  function NextEpochs(s: State, chosen: set<ChunkId>, model: ModelName): map<JobKey, nat> {
    map k | k in s.epochs.Keys + s.table.jobs.Keys ::
      if k in s.table.jobs && Queues(s.table.jobs, chosen, model, k) then Epoch(s, k) + 1 else Epoch(s, k)
  }

  function NewLeases(s: State, w: Worker, batch: Batch): set<Lease> {
    set r | r in batch.rows :: Lease(w, JobKey(r.chunk, batch.model), Epoch(s, JobKey(r.chunk, batch.model)), r.attempt)
  }

  function AfterPublish(t: Table, batch: Batch): Table {
    if t.config.enabled && t.config.model == batch.model then Published(t, batch)
      else t.(jobs := AfterFailure(t.jobs, batch))
  }

  function After(s: State, step: Step): State
    requires step.Publish? || step.Fail? ==> step.worker in s.workers
  {
    match step
    case Queue(chosen, model) =>
      s.(table := s.table.(jobs := Queued(s.table.jobs, chosen, model)), epochs := NextEpochs(s, chosen, model))
    case Claim(w, batch, stale, locked) =>
      var swept := Swept(s.table, batch.model, stale, locked);
      s.(table := swept.(jobs := Leased(swept.jobs, Keys(batch))), workers := s.workers[w := batch],
         leases := s.leases + NewLeases(s, w, batch))
    case Publish(w) => s.(table := AfterPublish(s.table, s.workers[w]), workers := s.workers - {w})
    case Fail(w) => s.(table := s.table.(jobs := AfterFailure(s.table.jobs, s.workers[w])), workers := s.workers - {w})
    case Crash(w) => s.(workers := s.workers - {w})
    case Withdraw(owners) => s.(table := Revoked(s.table, owners))
    case Demote(owners) => s.(table := s.table.(live := s.table.live - owners))
    case Restore(owners) => s.(table := s.table.(live := s.table.live + owners))
    case AddChunk(c, owner) => s.(table := s.table.(chunks := s.table.chunks[c := Chunk(owner, None)]))
    case Configure(config) => s.(table := s.table.(config := config))
  }

  // ---------------------------------------------------------------- what every step keeps

  predicate JobOk(s: State, k: JobKey) {
    k in s.table.jobs ==>
      var j := s.table.jobs[k];
      j.attempts <= MAX_ATTEMPTS && (j.status == Pending ==> j.attempts < MAX_ATTEMPTS) &&
        (j.status == Running ==> j.attempts > 0)
  }

  /** A lease is of an epoch gone by, or its number has been reached in the current one. */
  predicate LeaseOk(s: State, l: Lease) {
    l in s.leases ==>
      && l.key in s.table.jobs && 1 <= l.attempt <= MAX_ATTEMPTS
      && (l.epoch < Epoch(s, l.key) || (l.epoch == Epoch(s, l.key) && l.attempt <= s.table.jobs[l.key].attempts))
  }

  /** No two workers are ever given the same number for one job within one epoch. */
  predicate LeasesDiffer(s: State, l: Lease, m: Lease) {
    l in s.leases && m in s.leases && l.key == m.key && l.epoch == m.epoch && l.attempt == m.attempt ==> l == m
  }

  /** A running job is running under a lease of the current epoch. */
  ghost predicate RunningLeased(s: State, k: JobKey) {
    k in s.table.jobs && s.table.jobs[k].status == Running ==>
      exists l :: l in s.leases && l.key == k && l.epoch == Epoch(s, k) && l.attempt == s.table.jobs[k].attempts
  }

  /** What a worker holds was leased to it. */
  ghost predicate RowLeased(s: State, w: Worker, r: Row) {
    w in s.workers && r in s.workers[w].rows ==>
      exists l :: l in s.leases && l.worker == w && l.key == JobKey(r.chunk, s.workers[w].model) &&
        l.attempt == r.attempt
  }

  /** A chunk of a revoked owner holds no vector. */
  predicate ClearedOk(s: State, c: ChunkId) {
    Owned(s.table, s.table.revoked, c) ==> s.table.chunks[c].vector.None?
  }

  ghost predicate Inv(s: State) {
    && (forall k :: JobOk(s, k))
    && (forall l :: LeaseOk(s, l))
    && (forall l, m :: LeasesDiffer(s, l, m))
    && (forall k :: RunningLeased(s, k))
    && (forall w, r :: RowLeased(s, w, r))
    && (forall c :: ClearedOk(s, c))
    && s.table.live !! s.table.revoked
  }

  /** Steps that neither claim nor requeue: no lease, no epoch and no number changes, and no job starts to run. */
  ghost predicate Quiet(s: State, t: State) {
    && t.leases == s.leases && t.epochs == s.epochs && t.table.jobs.Keys == s.table.jobs.Keys
    && (forall k :: k in s.table.jobs ==>
          && t.table.jobs[k].attempts == s.table.jobs[k].attempts
          && (t.table.jobs[k].status == Running ==> s.table.jobs[k].status == Running)
          && (t.table.jobs[k].status == Pending && s.table.jobs[k].status != Pending ==>
              t.table.jobs[k].attempts < MAX_ATTEMPTS))
    && (forall w :: w in t.workers ==> w in s.workers && t.workers[w] == s.workers[w])
  }

  lemma QuietKeeps(s: State, t: State)
    requires Inv(s) && Quiet(s, t)
    requires (forall c :: ClearedOk(t, c)) && t.table.live !! t.table.revoked
    ensures Inv(t)
  {
    forall k ensures JobOk(t, k) {
      assert JobOk(s, k);
    }
    forall l ensures LeaseOk(t, l) {
      assert LeaseOk(s, l);
    }
    forall l, m ensures LeasesDiffer(t, l, m) {
      assert LeasesDiffer(s, l, m);
    }
    forall k ensures RunningLeased(t, k) {
      assert RunningLeased(s, k);
    }
    forall w, r ensures RowLeased(t, w, r) {
      assert RowLeased(s, w, r);
    }
  }

  lemma QueueKeeps(s: State, chosen: set<ChunkId>, model: ModelName)
    requires Inv(s)
    ensures Inv(After(s, Queue(chosen, model)))
  {
    var t := After(s, Queue(chosen, model));
    forall k ensures JobOk(t, k) {
      assert JobOk(s, k);
    }
    forall l ensures LeaseOk(t, l) {
      assert LeaseOk(s, l);
    }
    forall l, m ensures LeasesDiffer(t, l, m) {
      assert LeasesDiffer(s, l, m);
    }
    forall k ensures RunningLeased(t, k) {
      assert RunningLeased(s, k);
    }
    forall w, r ensures RowLeased(t, w, r) {
      assert RowLeased(s, w, r);
    }
    forall c ensures ClearedOk(t, c) {
      assert ClearedOk(s, c);
    }
  }

  /** The sweep at the start of a claim is itself quiet. */
  lemma SweepIsQuiet(s: State, model: ModelName, stale: set<JobKey>, locked: set<JobKey>)
    ensures Quiet(s, s.(table := Swept(s.table, model, stale, locked)))
    ensures var t := Swept(s.table, model, stale, locked);
            t.chunks == s.table.chunks && t.live == s.table.live && t.revoked == s.table.revoked
  {
  }

  /** New leases carry numbers that no lease of the epoch has reached. */
  lemma NewNumbersAreHigher(s: State, w: Worker, batch: Batch, stale: set<JobKey>, locked: set<JobKey>, r: Row,
                            l: Lease)
    requires Inv(s) && MayClaim(s, w, batch, stale, locked) && r in batch.rows && l in s.leases
    requires l.key == JobKey(r.chunk, batch.model) && l.epoch == Epoch(s, l.key)
    ensures l.attempt < r.attempt <= MAX_ATTEMPTS
  {
    assert LeaseOk(s, l);
    assert Claimable(Swept(s.table, batch.model, stale, locked), batch.model, l.key);
  }

  lemma NewLeasesDiffer(s: State, w: Worker, batch: Batch, stale: set<JobKey>, locked: set<JobKey>, l: Lease, m: Lease)
    requires Inv(s) && MayClaim(s, w, batch, stale, locked)
    requires l in s.leases && m in NewLeases(s, w, batch) && l.key == m.key && l.epoch == m.epoch
    ensures l.attempt < m.attempt
  {
    var r :| r in batch.rows &&
      m == Lease(w, JobKey(r.chunk, batch.model), Epoch(s, JobKey(r.chunk, batch.model)), r.attempt);
    NewNumbersAreHigher(s, w, batch, stale, locked, r, l);
  }

  /** Handing out the swept jobs: the second half of a claim. */
  lemma LeasingKeeps(s: State, w: Worker, batch: Batch, stale: set<JobKey>, locked: set<JobKey>, swept: State)
    requires Inv(s) && MayClaim(s, w, batch, stale, locked)
    requires swept == s.(table := Swept(s.table, batch.model, stale, locked)) && Inv(swept)
    ensures Inv(After(s, Step.Claim(w, batch, stale, locked)))
  {
    var t := After(s, Step.Claim(w, batch, stale, locked));
    forall k ensures JobOk(t, k) {
      assert JobOk(swept, k);
    }
    forall l ensures LeaseOk(t, l) {
      assert LeaseOk(swept, l);
    }
    forall l, m ensures LeasesDiffer(t, l, m) {
      assert LeasesDiffer(s, l, m);
      if l in s.leases && m in NewLeases(s, w, batch) && l.key == m.key && l.epoch == m.epoch {
        NewLeasesDiffer(s, w, batch, stale, locked, l, m);
      }
      if m in s.leases && l in NewLeases(s, w, batch) && l.key == m.key && l.epoch == m.epoch {
        NewLeasesDiffer(s, w, batch, stale, locked, m, l);
      }
    }
    forall k ensures RunningLeased(t, k) {
      assert RunningLeased(swept, k);
      if k in Keys(batch) {
        LeaseForKey(s, w, batch, k);
      }
    }
    forall v, r ensures RowLeased(t, v, r) {
      assert RowLeased(s, v, r);
      if v == w && r in batch.rows {
        assert Lease(w, JobKey(r.chunk, batch.model), Epoch(s, JobKey(r.chunk, batch.model)), r.attempt) in
               NewLeases(s, w, batch);
      }
    }
    forall c ensures ClearedOk(t, c) {
      assert ClearedOk(swept, c);
    }
  }

  lemma LeaseForKey(s: State, w: Worker, batch: Batch, k: JobKey)
    requires k in Keys(batch)
    ensures exists r ::
              r in batch.rows && k == JobKey(r.chunk, batch.model) &&
                Lease(w, k, Epoch(s, k), r.attempt) in NewLeases(s, w, batch)
  {
    var r :| r in batch.rows && k == JobKey(r.chunk, batch.model);
    assert Lease(w, k, Epoch(s, k), r.attempt) in NewLeases(s, w, batch);
  }

  lemma ClaimKeeps(s: State, w: Worker, batch: Batch, stale: set<JobKey>, locked: set<JobKey>)
    requires Inv(s) && MayClaim(s, w, batch, stale, locked)
    ensures Inv(After(s, Step.Claim(w, batch, stale, locked)))
  {
    var swept := s.(table := Swept(s.table, batch.model, stale, locked));
    SweepIsQuiet(s, batch.model, stale, locked);
    forall c ensures ClearedOk(swept, c) {
      assert ClearedOk(s, c);
    }
    QuietKeeps(s, swept);
    LeasingKeeps(s, w, batch, stale, locked, swept);
  }

  lemma StepKeepsInv(s: State, step: Step)
    requires Inv(s) && Enabled(s, step)
    ensures Inv(After(s, step))
  {
    match step
    case Queue(chosen, model) => QueueKeeps(s, chosen, model);
    case Claim(w, batch, stale, locked) => ClaimKeeps(s, w, batch, stale, locked);
    case _ =>
      forall c ensures ClearedOk(After(s, step), c) {
        assert ClearedOk(s, c);
      }
      QuietKeeps(s, After(s, step));
  }

  // ---------------------------------------------------------------- runs

  ghost predicate StepAt(states: seq<State>, steps: seq<Step>, i: int) {
    0 <= i < |steps| && i + 1 < |states| ==> Enabled(states[i], steps[i]) && states[i + 1] == After(states[i], steps[i])
  }

  /** Nothing queued, nobody at work, and no vectors yet. */
  predicate Start(s: State) {
    && s.workers == map[] && s.epochs == map[] && s.leases == {} && s.table.jobs == map[]
    && s.table.live !! s.table.revoked
    && (forall c :: c in s.table.chunks ==> s.table.chunks[c].vector.None?)
  }

  /** states[i + 1] results from states[i] by steps[i]. */
  ghost predicate Run(states: seq<State>, steps: seq<Step>) {
    |states| == |steps| + 1 && Start(states[0]) && forall i :: StepAt(states, steps, i)
  }

  lemma AtStep(states: seq<State>, steps: seq<Step>, i: nat)
    requires Run(states, steps) && i < |steps|
    ensures Enabled(states[i], steps[i]) && states[i + 1] == After(states[i], steps[i])
  {
    assert StepAt(states, steps, i);
  }

  lemma {:induction false} RunKeepsInv(states: seq<State>, steps: seq<Step>, n: nat)
    requires Run(states, steps) && n < |states|
    ensures Inv(states[n])
  {
    if n > 0 {
      RunKeepsInv(states, steps, n - 1);
      AtStep(states, steps, n - 1);
      StepKeepsInv(states[n - 1], steps[n - 1]);
    }
  }

  // ---------------------------------------------------------------- fencing within an epoch

  /**
   * Each claim on a job gets a higher number than every earlier claim of the epoch, and never more than MAX_ATTEMPTS.
   */
  lemma ClaimNumbersIncrease(states: seq<State>, steps: seq<Step>, n: nat, r: Row, l: Lease)
    requires Run(states, steps) && n < |steps| && steps[n].Claim? && r in steps[n].batch.rows
    requires l in states[n].leases && l.key == JobKey(r.chunk, steps[n].batch.model)
    requires l.epoch == Epoch(states[n], l.key)
    ensures l.attempt < r.attempt <= MAX_ATTEMPTS
  {
    RunKeepsInv(states, steps, n);
    AtStep(states, steps, n);
    NewNumbersAreHigher(states[n], steps[n].worker, steps[n].batch, steps[n].stale, steps[n].locked, r, l);
  }

  /**
   * Of all claims of a job's current epoch, at most one can pass the publish check; and no job waits with its attempts
   * used up.
   */
  lemma OneHolder(states: seq<State>, steps: seq<Step>, n: nat, l: Lease, m: Lease)
    requires Run(states, steps) && n < |states|
    requires l in states[n].leases && m in states[n].leases && l.key == m.key
    requires l.epoch == Epoch(states[n], l.key) && m.epoch == Epoch(states[n], m.key)
    requires Holds(states[n].table.jobs, l.key, l.attempt) && Holds(states[n].table.jobs, m.key, m.attempt)
    ensures l == m
  {
    RunKeepsInv(states, steps, n);
    assert LeasesDiffer(states[n], l, m);
  }

  lemma PendingHasAttemptsLeft(states: seq<State>, steps: seq<Step>, n: nat, k: JobKey)
    requires Run(states, steps) && n < |states| && k in states[n].table.jobs
    ensures states[n].table.jobs[k].attempts <= MAX_ATTEMPTS
    ensures states[n].table.jobs[k].status == Pending ==> states[n].table.jobs[k].attempts < MAX_ATTEMPTS
  {
    RunKeepsInv(states, steps, n);
    assert JobOk(states[n], k);
  }

  /** Step i publishes the job k. */
  ghost predicate PublishesAt(states: seq<State>, steps: seq<Step>, i: nat, k: JobKey) {
    && i < |steps| && i < |states| && steps[i].Publish? && steps[i].worker in states[i].workers
    && states[i].table.config.enabled && states[i].table.config.model == states[i].workers[steps[i].worker].model
    && HoldsOne(states[i].table.jobs, states[i].workers[steps[i].worker], k) && Eligible(states[i].table, k.chunk)
  }

  /** Once published, a job is finished until its next epoch. */
  predicate FinishedSince(s: State, k: JobKey, epoch: nat) {
    && k in s.table.jobs
    && (epoch < Epoch(s, k) || (epoch == Epoch(s, k) && s.table.jobs[k].status in {Completed, Skipped}))
  }

  lemma StepKeepsFinished(s: State, step: Step, k: JobKey, epoch: nat)
    requires Enabled(s, step) && FinishedSince(s, k, epoch)
    ensures FinishedSince(After(s, step), k, epoch)
  {
    if step.Claim? && k in Keys(step.batch) {
      var r :| r in step.batch.rows && k == JobKey(r.chunk, step.batch.model);
      assert Claimable(Swept(s.table, step.batch.model, step.stale, step.locked), step.batch.model, k);
    }
  }

  lemma {:induction false} StaysFinished(states: seq<State>, steps: seq<Step>, i: nat, n: nat, k: JobKey)
    requires Run(states, steps) && PublishesAt(states, steps, i, k) && i < n < |states|
    ensures FinishedSince(states[n], k, Epoch(states[i], k))
  {
    AtStep(states, steps, n - 1);
    if n > i + 1 {
      StaysFinished(states, steps, i, n - 1, k);
      StepKeepsFinished(states[n - 1], steps[n - 1], k, Epoch(states[i], k));
    }
  }

  /** A job is published at most once per epoch, whichever workers race for it. */
  lemma OnePublicationPerEpoch(states: seq<State>, steps: seq<Step>, i: nat, j: nat, k: JobKey)
    requires Run(states, steps) && i < j && PublishesAt(states, steps, i, k) && PublishesAt(states, steps, j, k)
    ensures Epoch(states[i], k) < Epoch(states[j], k)
  {
    StaysFinished(states, steps, i, j, k);
  }

  /** The worker has been given its batch and is done with it. */
  ghost predicate Retired(s: State, w: Worker) {
    w !in s.workers && exists l :: l in s.leases && l.worker == w
  }

  lemma {:induction false} StaysRetired(states: seq<State>, steps: seq<Step>, i: nat, n: nat, w: Worker)
    requires Run(states, steps) && i <= n < |states| && Retired(states[i], w)
    ensures Retired(states[n], w)
  {
    if i < n {
      StaysRetired(states, steps, i, n - 1, w);
      AtStep(states, steps, n - 1);
    }
  }

  /** A claim publishes at most once, in all epochs together. */
  lemma ClaimPublishesOnce(states: seq<State>, steps: seq<Step>, i: nat, j: nat, k: JobKey)
    requires Run(states, steps) && i < j && PublishesAt(states, steps, i, k) && PublishesAt(states, steps, j, k)
    ensures steps[i].worker != steps[j].worker
  {
    var w, l := steps[i].worker, i + 1;
    var r := Row(k.chunk, states[i].table.jobs[k].attempts);
    RunKeepsInv(states, steps, i);
    assert RowLeased(states[i], w, r);
    AtStep(states, steps, i);
    StaysRetired(states, steps, l, j, w);
  }

  // ---------------------------------------------------------------- fencing across restarts

  /** Step a claims the job k with the number r. */
  ghost predicate ClaimedAt(states: seq<State>, steps: seq<Step>, a: nat, k: JobKey, r: nat) {
    a < |steps| && steps[a].Claim? && steps[a].batch.model == k.model && Row(k.chunk, r) in steps[a].batch.rows
  }

  /** A later step, before state n, claims the job again. */
  ghost predicate ClaimedAgain(steps: seq<Step>, a: nat, n: nat, k: JobKey) {
    exists b :: a < b < n && b < |steps| && Claims(steps[b], k)
  }

  predicate Claims(step: Step, k: JobKey) { step.Claim? && k in Keys(step.batch) }

  /** The step is a queue_missing that finds the job completed or skipped and starts it over. */
  predicate Restarts(s: State, step: Step, k: JobKey) {
    step.Queue? && k in s.table.jobs && EmbeddingJobs.Queues(s.table.jobs, step.chosen, step.model, k)
  }

  ghost predicate RestartedBetween(states: seq<State>, steps: seq<Step>, a: nat, n: nat, k: JobKey) {
    exists i :: a < i < n && i < |steps| && i < |states| && Restarts(states[i], steps[i], k)
  }

  function Attempts(s: State, k: JobKey): nat { if k in s.table.jobs then s.table.jobs[k].attempts else 0 }

  /**
   * A claim raises the number by one, a restart puts it to zero, and nothing else changes it or starts a job to run.
   */
  lemma StepNumbers(s: State, step: Step, k: JobKey)
    requires Enabled(s, step) && k in s.table.jobs
    ensures k in After(s, step).table.jobs
    ensures Claims(step, k) ==> Attempts(After(s, step), k) == Attempts(s, k) + 1
    ensures Restarts(s, step, k) ==> After(s, step).table.jobs[k] == Job(Pending, 0)
    ensures !Claims(step, k) && !Restarts(s, step, k) ==> Attempts(After(s, step), k) == Attempts(s, k)
    ensures !Claims(step, k) && After(s, step).table.jobs[k].status == Running ==> s.table.jobs[k].status == Running
  {
    if Claims(step, k) {
      var r :| r in step.batch.rows && k == JobKey(r.chunk, step.batch.model);
      assert Claimable(Swept(s.table, step.batch.model, step.stale, step.locked), step.batch.model, k);
    }
  }

  /** A claim leaves its job running under the number of its row. */
  lemma ClaimSets(states: seq<State>, steps: seq<Step>, a: nat, k: JobKey, r: nat)
    requires Run(states, steps) && ClaimedAt(states, steps, a, k, r)
    ensures k in states[a].table.jobs && Claims(steps[a], k) && Holds(states[a + 1].table.jobs, k, r)
  {
    AtStep(states, steps, a);
    var row := Row(k.chunk, r);
    assert Claimable(Swept(states[a].table, k.model, steps[a].stale, steps[a].locked), k.model, k);
    assert k in Keys(steps[a].batch);
  }

  /** Without a restart the number never falls, and it rises exactly when the job is claimed again. */
  lemma {:induction false} NumbersWithoutRestart(states: seq<State>, steps: seq<Step>, a: nat, n: nat, k: JobKey,
                                                 r: nat)
    requires Run(states, steps) && ClaimedAt(states, steps, a, k, r) && a < n < |states|
    requires !RestartedBetween(states, steps, a, n, k)
    ensures k in states[n].table.jobs && Attempts(states[n], k) >= r
    ensures Attempts(states[n], k) > r <==> ClaimedAgain(steps, a, n, k)
  {
    ClaimSets(states, steps, a, k, r);
    if n > a + 1 {
      var m := n - 1;
      assert !RestartedBetween(states, steps, a, m, k);
      NumbersWithoutRestart(states, steps, a, m, k, r);
      AtStep(states, steps, m);
      StepNumbers(states[m], steps[m], k);
      assert !Restarts(states[m], steps[m], k);
      assert ClaimedAgain(steps, a, n, k) <==> ClaimedAgain(steps, a, m, k) || Claims(steps[m], k) by {
        if Claims(steps[m], k) {
          assert a < m < n;
        }
      }
    }
  }

  /** A job that was restarted runs again only after another claim. */
  lemma {:induction false} RunningNeedsClaim(states: seq<State>, steps: seq<Step>, i: nat, n: nat, k: JobKey)
    requires Run(states, steps) && i < n < |states| && Restarts(states[i], steps[i], k)
    requires k in states[n].table.jobs && states[n].table.jobs[k].status == Running
    ensures ClaimedAgain(steps, i, n, k)
  {
    var m := n - 1;
    AtStep(states, steps, m);
    if m == i {
      StepNumbers(states[m], steps[m], k);
    } else {
      JobsStay(states, steps, i, m, k);
      StepNumbers(states[m], steps[m], k);
      if !Claims(steps[m], k) {
        RunningNeedsClaim(states, steps, i, m, k);
      }
    }
  }

  lemma {:induction false} JobsStay(states: seq<State>, steps: seq<Step>, i: nat, n: nat, k: JobKey)
    requires Run(states, steps) && i <= n < |states| && k in states[i].table.jobs
    ensures k in states[n].table.jobs
  {
    if i < n {
      JobsStay(states, steps, i, n - 1, k);
      AtStep(states, steps, n - 1);
      StepNumbers(states[n - 1], steps[n - 1], k);
    }
  }

  /**
   * A claim whose row passes the publish check has been overtaken by a later claim exactly when, since it was made,
   * some queue_missing found the job completed or skipped and put its attempts back to zero.
   */
  lemma OvertakenRowPassesExactlyWhenRestarted(states: seq<State>, steps: seq<Step>, a: nat, n: nat, k: JobKey, r: nat)
    requires Run(states, steps) && ClaimedAt(states, steps, a, k, r) && a < n < |states|
    requires Holds(states[n].table.jobs, k, r)
    ensures ClaimedAgain(steps, a, n, k) <==> RestartedBetween(states, steps, a, n, k)
  {
    if RestartedBetween(states, steps, a, n, k) {
      var i :| a < i < n && i < |steps| && i < |states| && Restarts(states[i], steps[i], k);
      RunningNeedsClaim(states, steps, i, n, k);
      var b :| i < b < n && b < |steps| && Claims(steps[b], k);
      assert a < b < n;
    } else {
      NumbersWithoutRestart(states, steps, a, n, k, r);
    }
  }

  /** Without such a restart the fence is exact: a row passes iff its job runs and nobody has claimed it since. */
  lemma FenceIsExactWithoutRestart(states: seq<State>, steps: seq<Step>, a: nat, n: nat, k: JobKey, r: nat)
    requires Run(states, steps) && ClaimedAt(states, steps, a, k, r) && a < n < |states|
    requires !RestartedBetween(states, steps, a, n, k)
    ensures k in states[n].table.jobs
    ensures Holds(states[n].table.jobs, k, r) <==>
              states[n].table.jobs[k].status == Running && !ClaimedAgain(steps, a, n, k)
  {
    NumbersWithoutRestart(states, steps, a, n, k, r);
  }

  // ---------------------------------------------------------------- a run in which an overtaken row passes

  const K := JobKey(0, "m")
  const BATCH := Batch("m", [Row(0, 1)])
  const NO_ROWS := Batch("m", [])

  /** One chunk and one job of it; workers 1 and 3 both claim attempt 1. */
  function Scene(jobs: map<JobKey, Job>, live: set<Owner>, workers: map<Worker, Batch>, epochs: map<JobKey, nat>,
                 leases: set<Lease>): State
  {
    State(Table(map[0 := Chunk(Some(0), None)], live, {}, jobs, Config(true, "m")), workers, epochs, leases)
  }

  /**
   * Worker 1 claims and takes long. The item is retired; the next worker recovers the stale job and skips it. The item
   * is reinstated, its chunk is queued again, and worker 3 claims it: again with the number 1. Then worker 1 publishes.
   */
  const STEPS := [Queue({0}, "m"), Step.Claim(1, BATCH, {}, {}), Demote({0}), Step.Claim(2, NO_ROWS, {K}, {}),
                  Restore({0}), Queue({0}, "m"), Step.Claim(3, BATCH, {}, {}), Step.Publish(1)]

  const FIRST := {Lease(1, K, 0, 1)}
  const SLOW := map[1 := BATCH, 2 := NO_ROWS]

  const STATES := [
    Scene(map[], {0}, map[], map[], {}),
    Scene(map[K := Job(Pending, 0)], {0}, map[], map[], {}),
    Scene(map[K := Job(Running, 1)], {0}, map[1 := BATCH], map[], FIRST),
    Scene(map[K := Job(Running, 1)], {}, map[1 := BATCH], map[], FIRST),
    Scene(map[K := Job(Skipped, 1)], {}, SLOW, map[], FIRST),
    Scene(map[K := Job(Skipped, 1)], {0}, SLOW, map[], FIRST),
    Scene(map[K := Job(Pending, 0)], {0}, SLOW, map[K := 1], FIRST),
    Scene(map[K := Job(Running, 1)], {0}, SLOW[3 := BATCH], map[K := 1], FIRST + {Lease(3, K, 1, 1)})
  ]

  lemma SceneQueued(jobs: map<JobKey, Job>, workers: map<Worker, Batch>, leases: set<Lease>)
    requires jobs == map[] || jobs == map[K := Job(Skipped, 1)]
    ensures After(Scene(jobs, {0}, workers, map[], leases), Queue({0}, "m")) ==
              Scene(map[K := Job(Pending, 0)], {0}, workers, if jobs == map[] then map[] else map[K := 1], leases)
  {
    var t := After(Scene(jobs, {0}, workers, map[], leases), Queue({0}, "m"));
    assert t.table.jobs == map[K := Job(Pending, 0)];
    assert t.epochs == if jobs == map[] then map[] else map[K := 1];
  }

  lemma SceneClaimed(w: Worker, workers: map<Worker, Batch>, epochs: map<JobKey, nat>, leases: set<Lease>)
    requires w !in workers && forall l :: l in leases ==> l.worker != w
    ensures var s := Scene(map[K := Job(Pending, 0)], {0}, workers, epochs, leases);
            && Enabled(s, Step.Claim(w, BATCH, {}, {}))
            && After(s, Step.Claim(w, BATCH, {}, {})) ==
               Scene(map[K := Job(Running, 1)], {0}, workers[w := BATCH], epochs,
                     leases + {Lease(w, K, Epoch(s, K), 1)})
  {
    var s := Scene(map[K := Job(Pending, 0)], {0}, workers, epochs, leases);
    assert Swept(s.table, "m", {}, {}).jobs == s.table.jobs;
    assert BATCH.rows[0] == Row(0, 1);
    assert Keys(BATCH) == {K};
    assert NewLeases(s, w, BATCH) == {Lease(w, K, Epoch(s, K), 1)};
  }

  /** Stale recovery and the skipping of ineligible jobs, in a claim that finds nothing to lease. */
  lemma SceneSwept()
    ensures Enabled(STATES[3], Step.Claim(2, NO_ROWS, {K}, {}))
    ensures After(STATES[3], Step.Claim(2, NO_ROWS, {K}, {})) == STATES[4]
  {
    var s := STATES[3];
    assert Recovered(s.table.jobs, {K}) == map[K := Job(Pending, 1)];
    assert Swept(s.table, "m", {K}, {}).jobs == map[K := Job(Skipped, 1)];
    assert Keys(NO_ROWS) == {} && NewLeases(s, 2, NO_ROWS) == {};
    assert Leased(map[K := Job(Skipped, 1)], {}) == map[K := Job(Skipped, 1)];
    assert map[1 := BATCH][2 := NO_ROWS] == SLOW;
  }

  lemma SceneStep(i: nat)
    requires i < 7
    ensures Enabled(STATES[i], STEPS[i]) && After(STATES[i], STEPS[i]) == STATES[i + 1]
  {
    if i < 3 {
      EarlyStep(i);
    } else {
      LateStep(i);
    }
  }

  lemma EarlyStep(i: nat)
    requires i < 3
    ensures Enabled(STATES[i], STEPS[i]) && After(STATES[i], STEPS[i]) == STATES[i + 1]
  {
    if i == 0 {
      SceneQueued(map[], map[], {});
    } else if i == 1 {
      SceneClaimed(1, map[], map[], {});
    }
  }

  lemma LateStep(i: nat)
    requires 3 <= i < 7
    ensures Enabled(STATES[i], STEPS[i]) && After(STATES[i], STEPS[i]) == STATES[i + 1]
  {
    if i == 3 {
      SceneSwept();
    } else if i == 5 {
      SceneQueued(map[K := Job(Skipped, 1)], SLOW, FIRST);
    } else if i == 6 {
      SceneClaimed(3, SLOW, map[K := 1], FIRST);
    }
  }

  const LAST: State := After(STATES[7], Step.Publish(1))

  /** Worker 1 publishes at the end although worker 3 has claimed the job since. */
  lemma StaleWorkerCanPublish()
    ensures Run(STATES + [LAST], STEPS) && PublishesAt(STATES + [LAST], STEPS, 7, K)
    ensures ClaimedAt(STATES + [LAST], STEPS, 1, K, 1) && STEPS[7] == Step.Publish(STEPS[1].worker)
    ensures ClaimedAgain(STEPS, 1, 7, K)
  {
    var states := STATES + [LAST];
    forall i ensures StepAt(states, STEPS, i) {
      if 0 <= i < 7 {
        SceneStep(i);
        assert states[i] == STATES[i] && states[i + 1] == STATES[i + 1];
      } else if i == 7 {
        assert states[7] == STATES[7] && states[8] == LAST && STEPS[7] == Step.Publish(1);
      }
    }
    assert BATCH.rows[0] == Row(0, 1) && Row(0, 1) in BATCH.rows;
    assert K in Keys(BATCH);
    assert Claims(STEPS[6], K);
  }

  // ---------------------------------------------------------------- losing eligibility

  /** Whoever writes a vector is a worker publishing it, and the chunk is eligible at that moment. */
  lemma OnlyPublishWritesVectors(s: State, step: Step, c: ChunkId)
    requires Enabled(s, step) && c in After(s, step).table.chunks && After(s, step).table.chunks[c].vector.Some?
    requires c in s.table.chunks ==> s.table.chunks[c].vector != After(s, step).table.chunks[c].vector
    ensures step.Publish? && Eligible(s.table, c)
    ensures HoldsOne(s.table.jobs, s.workers[step.worker], JobKey(c, After(s, step).table.chunks[c].vector.value))
    ensures s.table.config.enabled && s.table.config.model == s.workers[step.worker].model
  {
  }

  /**
   * Revocation clears for good: from then on the chunks of its owners hold no vector, whatever workers are under way.
   */
  lemma RevokedHoldsNoVector(states: seq<State>, steps: seq<Step>, i: nat, n: nat, c: ChunkId)
    requires Run(states, steps) && i < n < |states| && steps[i].Withdraw?
    requires Owned(states[n].table, steps[i].owners, c)
    ensures states[n].table.chunks[c].vector.None? && !Eligible(states[n].table, c)
  {
    RevokedForGood(states, steps, i, n);
    RunKeepsInv(states, steps, n);
    assert ClearedOk(states[n], c);
  }

  lemma {:induction false} RevokedForGood(states: seq<State>, steps: seq<Step>, i: nat, n: nat)
    requires Run(states, steps) && i < n < |states| && steps[i].Withdraw?
    ensures steps[i].owners <= states[n].table.revoked
  {
    AtStep(states, steps, n - 1);
    if i < n - 1 {
      RevokedForGood(states, steps, i, n - 1);
    }
  }

  /** The step revokes the chunk's owner. */
  predicate Clears(s: State, step: Step, c: ChunkId) { step.Withdraw? && Owned(s.table, step.owners, c) }

  /** The step leaves an ineligible chunk its vector, unless it is the revocation of its owner. */
  lemma StepToIneligible(s: State, step: Step, c: ChunkId)
    requires Enabled(s, step) && c in s.table.chunks && !Eligible(After(s, step).table, c)
    ensures c in After(s, step).table.chunks
    ensures After(s, step).table.chunks[c].vector == if Clears(s, step, c) then None else s.table.chunks[c].vector
  {
  }

  /** State i is the last in which the chunk was eligible. */
  ghost predicate LastEligible(states: seq<State>, i: nat, n: nat, c: ChunkId) {
    i < n < |states| && Eligible(states[i].table, c) && forall j :: i < j <= n ==> !Eligible(states[j].table, c)
  }

  ghost predicate RevokedSince(states: seq<State>, steps: seq<Step>, i: nat, n: nat, c: ChunkId) {
    exists j :: i <= j < n && j < |steps| && j < |states| && Clears(states[j], steps[j], c)
  }

  /**
   * When the chunk last lost its eligibility it held a vector, and neither that loss nor anything since was a
   * revocation.
   */
  ghost predicate KeptItsVector(states: seq<State>, steps: seq<Step>, i: nat, n: nat, c: ChunkId) {
    && LastEligible(states, i, n, c) && c in states[i].table.chunks && states[i].table.chunks[c].vector.Some?
    && !RevokedSince(states, steps, i, n, c)
  }

  ghost predicate LeftOver(states: seq<State>, steps: seq<Step>, n: nat, c: ChunkId) {
    exists i: nat :: KeptItsVector(states, steps, i, n, c)
  }

  lemma {:induction false} ChunksStay(states: seq<State>, steps: seq<Step>, i: nat, n: nat, c: ChunkId)
    requires Run(states, steps) && i <= n < |states| && c in states[i].table.chunks
    ensures c in states[n].table.chunks
  {
    if i < n {
      ChunksStay(states, steps, i, n - 1, c);
      AtStep(states, steps, n - 1);
    }
  }

  /** One more step of ineligibility, seen from a state before it. */
  lemma LeftOverMore(states: seq<State>, steps: seq<Step>, n: nat, c: ChunkId)
    requires Run(states, steps) && n + 1 < |states| && c in states[n].table.chunks
    requires !Eligible(states[n].table, c) && !Eligible(states[n + 1].table, c)
    ensures LeftOver(states, steps, n + 1, c) <==> LeftOver(states, steps, n, c) && !Clears(states[n], steps[n], c)
  {
    if LeftOver(states, steps, n + 1, c) {
      var i: nat :| KeptItsVector(states, steps, i, n + 1, c);
      assert i != n;
      assert !RevokedSince(states, steps, i, n, c);
      assert KeptItsVector(states, steps, i, n, c);
    }
    if LeftOver(states, steps, n, c) && !Clears(states[n], steps[n], c) {
      var i: nat :| KeptItsVector(states, steps, i, n, c);
      assert forall j :: i < j <= n + 1 ==> !Eligible(states[j].table, c);
      assert !RevokedSince(states, steps, i, n + 1, c);
      assert KeptItsVector(states, steps, i, n + 1, c);
    }
  }

  /** The step in which eligibility is lost. */
  lemma LeftOverNow(states: seq<State>, steps: seq<Step>, n: nat, c: ChunkId)
    requires Run(states, steps) && n + 1 < |states| && c in states[n].table.chunks
    requires Eligible(states[n].table, c) && !Eligible(states[n + 1].table, c)
    ensures LeftOver(states, steps, n + 1, c) <==>
              states[n].table.chunks[c].vector.Some? && !Clears(states[n], steps[n], c)
  {
    if LeftOver(states, steps, n + 1, c) {
      var i: nat :| KeptItsVector(states, steps, i, n + 1, c);
      assert i == n;
    }
    if states[n].table.chunks[c].vector.Some? && !Clears(states[n], steps[n], c) {
      assert KeptItsVector(states, steps, n, n + 1, c);
    }
  }

  /**
   * A chunk that is not eligible holds a vector exactly when it held one as it last lost its eligibility, and that loss
   * was a change of status: neither it nor anything since was a revocation. Mid-batch workers make no difference.
   */
  lemma {:induction false} IneligibleHoldsVectorExactlyWhen(states: seq<State>, steps: seq<Step>, n: nat, c: ChunkId)
    requires Run(states, steps) && n < |states| && c in states[n].table.chunks && !Eligible(states[n].table, c)
    ensures states[n].table.chunks[c].vector.Some? <==> LeftOver(states, steps, n, c)
  {
    if n > 0 {
      var m := n - 1;
      AtStep(states, steps, m);
      if c !in states[m].table.chunks {
        if LeftOver(states, steps, n, c) {
          var i: nat :| KeptItsVector(states, steps, i, n, c);
          ChunksStay(states, steps, i, m, c);
        }
      } else {
        StepToIneligible(states[m], steps[m], c);
        if Eligible(states[m].table, c) {
          LeftOverNow(states, steps, m, c);
        } else {
          LeftOverMore(states, steps, m, c);
          IneligibleHoldsVectorExactlyWhen(states, steps, m, c);
        }
      }
    }
  }

  /** A published vector outlives the retirement of its item: the steps are publish, then Demote. */
  lemma RetirementKeepsTheVector(s: State, w: Worker, c: ChunkId)
    requires w in s.workers && Publishes(s.table, s.workers[w], c)
    requires s.table.config == Config(true, s.workers[w].model)
    ensures var owner := s.table.chunks[c].owner.value;
            var t := After(After(s, Step.Publish(w)), Demote({owner}));
            !Eligible(t.table, c) && t.table.chunks[c].vector == Some(s.workers[w].model)
  {
  }

  /** The run of StaleWorkerCanPublish, followed by a retirement: the chunk is ineligible and holds its vector. */
  lemma IneligibleChunkCanHoldVector()
    ensures Run(STATES + [LAST, After(LAST, Demote({0}))], STEPS + [Demote({0})])
    ensures var t := After(LAST, Demote({0})).table;
            !Eligible(t, 0) && 0 in t.chunks && t.chunks[0].vector == Some("m")
  {
    StaleWorkerCanPublish();
    var states, steps := STATES + [LAST, After(LAST, Demote({0}))], STEPS + [Demote({0})];
    forall i ensures StepAt(states, steps, i) {
      if 0 <= i < 8 {
        AtStep(STATES + [LAST], STEPS, i);
        assert states[i] == (STATES + [LAST])[i] && states[i + 1] == (STATES + [LAST])[i + 1] && steps[i] == STEPS[i];
      } else if i == 8 {
        assert states[8] == LAST && states[9] == After(LAST, Demote({0})) && steps[8] == Demote({0});
      }
    }
    assert BATCH.rows[0] == Row(0, 1);
  }

  /** Every vector was published by a step at which its chunk was eligible, and its owner has not been revoked since. */
  lemma {:induction false} VectorWasPublishedWhileEligible(states: seq<State>, steps: seq<Step>, n: nat, c: ChunkId)
    returns (i: nat)
    requires Run(states, steps) && n < |states| && c in states[n].table.chunks && states[n].table.chunks[c].vector.Some?
    ensures i < n && PublishesAt(states, steps, i, JobKey(c, states[n].table.chunks[c].vector.value))
    ensures !RevokedSince(states, steps, i, n, c)
  {
    var b := n - 1;
    var s, step := states[b], steps[b];
    AtStep(states, steps, b);
    if PublishesAt(states, steps, b, JobKey(c, states[n].table.chunks[c].vector.value)) {
      i := b;
    } else {
      i := VectorWasPublishedWhileEligible(states, steps, b, c);
      assert !Clears(s, step, c);
    }
  }
}
