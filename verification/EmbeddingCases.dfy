/** A run in which a stale worker publishes after the model was changed and changed back; the owner stays active. */
module EmbeddingCases {
  import opened EmbeddingJobs
  import opened EmbeddingRuns
  import opened Wrappers

  const MODEL := "m"
  const OTHER := "m2"
  const MINE := JobKey(0, MODEL)
  const THEIRS := JobKey(0, OTHER)

  function OneRow(model: ModelName, attempt: nat): Batch { Batch(model, [Row(0, attempt)]) }

  /** One chunk with its vector, under the configured model, and its jobs. */
  function Scene(vector: Option<ModelName>, model: ModelName, jobs: map<JobKey, Job>, workers: map<Worker, Batch>,
                 epochs: map<JobKey, nat>, leases: set<Lease>): State
  {
    State(Table(map[0 := Chunk(Some(0), vector)], {0}, {}, jobs, Config(true, model)), workers, epochs, leases)
  }

  /**
   * Worker 1 claims and takes long; worker 2 recovers the stale job and publishes. The model is changed, worker 3
   * publishes under the new one, and the model is changed back. Now the vector is missing again, queue_missing starts
   * the completed job over, and worker 4 claims it: with the number 1 that worker 1 still holds.
   */
  const SWITCHES := [Queue({0}, MODEL), Step.Claim(1, OneRow(MODEL, 1), {}, {}),
                     Step.Claim(2, OneRow(MODEL, 2), {MINE}, {}), Step.Publish(2), Configure(Config(true, OTHER)),
                     Queue({0}, OTHER), Step.Claim(3, OneRow(OTHER, 1), {}, {}), Step.Publish(3),
                     Configure(Config(true, MODEL)), Queue({0}, MODEL), Step.Claim(4, OneRow(MODEL, 1), {}, {}),
                     Step.Publish(1)]

  const L1 := Lease(1, MINE, 0, 1)
  const L2 := Lease(2, MINE, 0, 2)
  const L3 := Lease(3, THEIRS, 0, 1)
  const SLOW := map[1 := OneRow(MODEL, 1)]

  const SCENES := [
    Scene(None, MODEL, map[], map[], map[], {}),
    Scene(None, MODEL, map[MINE := Job(Pending, 0)], map[], map[], {}),
    Scene(None, MODEL, map[MINE := Job(Running, 1)], SLOW, map[], {L1}),
    Scene(None, MODEL, map[MINE := Job(Running, 2)], SLOW[2 := OneRow(MODEL, 2)], map[], {L1, L2}),
    Scene(Some(MODEL), MODEL, map[MINE := Job(Completed, 2)], SLOW, map[], {L1, L2}),
    Scene(Some(MODEL), OTHER, map[MINE := Job(Completed, 2)], SLOW, map[], {L1, L2}),
    Scene(Some(MODEL), OTHER, map[MINE := Job(Completed, 2), THEIRS := Job(Pending, 0)], SLOW, map[MINE := 0],
          {L1, L2}),
    Scene(Some(MODEL), OTHER, map[MINE := Job(Completed, 2), THEIRS := Job(Running, 1)], SLOW[3 := OneRow(OTHER, 1)],
          map[MINE := 0], {L1, L2, L3}),
    Scene(Some(OTHER), OTHER, map[MINE := Job(Completed, 2), THEIRS := Job(Completed, 1)], SLOW, map[MINE := 0],
          {L1, L2, L3}),
    Scene(Some(OTHER), MODEL, map[MINE := Job(Completed, 2), THEIRS := Job(Completed, 1)], SLOW, map[MINE := 0],
          {L1, L2, L3}),
    Scene(Some(OTHER), MODEL, map[MINE := Job(Pending, 0), THEIRS := Job(Completed, 1)], SLOW,
          map[MINE := 1, THEIRS := 0], {L1, L2, L3}),
    Scene(Some(OTHER), MODEL, map[MINE := Job(Running, 1), THEIRS := Job(Completed, 1)], SLOW[4 := OneRow(MODEL, 1)],
          map[MINE := 1, THEIRS := 0], {L1, L2, L3, Lease(4, MINE, 1, 1)})
  ]

  // ---------------------------------------------------------------- single steps

  /** queue_missing for a chunk that has no vector of the model. */
  lemma SceneQueued(s: State, model: ModelName, jobs: map<JobKey, Job>, epochs: map<JobKey, nat>)
    requires jobs.Keys == s.table.jobs.Keys + {JobKey(0, model)}
    requires JobKey(0, model) in s.table.jobs ==> s.table.jobs[JobKey(0, model)].status == Completed
    requires forall k :: k in jobs ==> jobs[k] == if k == JobKey(0, model) then Job(Pending, 0) else s.table.jobs[k]
    requires epochs.Keys == s.epochs.Keys + s.table.jobs.Keys
    requires forall k :: k in epochs ==> epochs[k] == Epoch(s, k) + if k == JobKey(0, model) then 1 else 0
    requires JobKey(0, model) in s.epochs ==> JobKey(0, model) in s.table.jobs
    ensures After(s, Queue({0}, model)) == s.(table := s.table.(jobs := jobs), epochs := epochs)
  {
    SameMap(Queued(s.table.jobs, {0}, model), jobs);
    SameMap(NextEpochs(s, {0}, model), epochs);
  }

  lemma SameMap<K, V>(a: map<K, V>, b: map<K, V>)
    requires a.Keys == b.Keys && forall k :: k in a ==> a[k] == b[k]
    ensures a == b
  {
  }

  /** A claim of the one chunk, after the recovery of stale jobs, at the given number. */
  lemma SceneClaimed(s: State, w: Worker, model: ModelName, attempt: nat, stale: set<JobKey>, jobs: map<JobKey, Job>)
    requires w !in s.workers && forall l :: l in s.leases ==> l.worker != w
    requires Eligible(s.table, 0) && JobKey(0, model) in s.table.jobs
    requires 0 < attempt <= MAX_ATTEMPTS
    requires Recovered(s.table.jobs, stale)[JobKey(0, model)] == Job(Pending, attempt - 1)
    requires jobs == Recovered(s.table.jobs, stale)[JobKey(0, model) := Job(Running, attempt)]
    requires forall k :: k in s.table.jobs ==> k.chunk == 0
    ensures Enabled(s, Step.Claim(w, OneRow(model, attempt), stale, {}))
    ensures After(s, Step.Claim(w, OneRow(model, attempt), stale, {})) ==
              State(s.table.(jobs := jobs), s.workers[w := OneRow(model, attempt)], s.epochs,
                    s.leases + {Lease(w, JobKey(0, model), Epoch(s, JobKey(0, model)), attempt)})
  {
    var batch := OneRow(model, attempt);
    assert batch.rows[0] == Row(0, attempt);
    assert Swept(s.table, model, stale, {}).jobs == Recovered(s.table.jobs, stale);
    assert Keys(batch) == {JobKey(0, model)};
    assert NewLeases(s, w, batch) == {Lease(w, JobKey(0, model), Epoch(s, JobKey(0, model)), attempt)};
    assert Leased(Recovered(s.table.jobs, stale), Keys(batch)) == jobs;
  }

  /** A publication of the one chunk by the worker that holds its job. */
  lemma ScenePublished(s: State, w: Worker, model: ModelName, attempt: nat, chunks: map<ChunkId, Chunk>,
                       jobs: map<JobKey, Job>)
    requires w in s.workers && s.workers[w] == OneRow(model, attempt) && s.table.config == Config(true, model)
    requires Eligible(s.table, 0) && s.table.chunks.Keys == {0}
    requires JobKey(0, model) in s.table.jobs && s.table.jobs[JobKey(0, model)] == Job(Running, attempt)
    requires forall k :: k in s.table.jobs ==> k.chunk == 0
    requires chunks == s.table.chunks[0 := s.table.chunks[0].(vector := Some(model))]
    requires jobs == s.table.jobs[JobKey(0, model) := Job(Completed, attempt)]
    ensures After(s, Step.Publish(w)) ==
              s.(table := s.table.(chunks := chunks, jobs := jobs), workers := s.workers - {w})
  {
    assert s.workers[w].rows[0] == Row(0, attempt);
    var t := After(s, Step.Publish(w));
    assert t.table.chunks == chunks;
    assert t.table.jobs == jobs;
  }

  // ---------------------------------------------------------------- the run

  ghost predicate Leads(i: nat)
    requires i < 11
  {
    Enabled(SCENES[i], SWITCHES[i]) && After(SCENES[i], SWITCHES[i]) == SCENES[i + 1]
  }

  lemma Queued1()
    ensures Leads(0)
  {
    var s, t := SCENES[0], SCENES[1];
    SceneQueued(s, MODEL, t.table.jobs, t.epochs);
  }

  lemma Claimed1()
    ensures Leads(1)
  {
    var s, t := SCENES[1], SCENES[2];
    assert Recovered(s.table.jobs, {}) == s.table.jobs;
    SceneClaimed(s, 1, MODEL, 1, {}, t.table.jobs);
  }

  lemma Claimed2()
    ensures Leads(2)
  {
    var s, t := SCENES[2], SCENES[3];
    assert Recovered(s.table.jobs, {MINE}) == map[MINE := Job(Pending, 1)];
    SceneClaimed(s, 2, MODEL, 2, {MINE}, t.table.jobs);
  }

  lemma Published2()
    ensures Leads(3)
  {
    var s, t := SCENES[3], SCENES[4];
    ScenePublished(s, 2, MODEL, 2, t.table.chunks, t.table.jobs);
    assert s.workers - {2} == SLOW;
  }

  lemma Queued3()
    ensures Leads(5)
  {
    var s, t := SCENES[5], SCENES[6];
    SceneQueued(s, OTHER, t.table.jobs, t.epochs);
  }

  lemma Claimed3()
    ensures Leads(6)
  {
    var s, t := SCENES[6], SCENES[7];
    assert Recovered(s.table.jobs, {}) == s.table.jobs;
    SceneClaimed(s, 3, OTHER, 1, {}, t.table.jobs);
  }

  lemma Published3()
    ensures Leads(7)
  {
    var s, t := SCENES[7], SCENES[8];
    ScenePublished(s, 3, OTHER, 1, t.table.chunks, t.table.jobs);
    assert s.workers - {3} == SLOW;
  }

  lemma Queued4()
    ensures Leads(9)
  {
    var s, t := SCENES[9], SCENES[10];
    SceneQueued(s, MODEL, t.table.jobs, t.epochs);
  }

  lemma Claimed4()
    ensures Leads(10)
  {
    var s, t := SCENES[10], SCENES[11];
    assert Recovered(s.table.jobs, {}) == s.table.jobs;
    SceneClaimed(s, 4, MODEL, 1, {}, t.table.jobs);
  }

  /** The two changes of the configuration. */
  lemma Configured(i: nat)
    requires i == 4 || i == 8
    ensures Leads(i)
  {
  }

  const LAST: State := After(SCENES[11], Step.Publish(1))

  /** Worker 1 publishes at the end although worker 4 has claimed the job since; the owner was active all along. */
  lemma StaleAfterModelSwitch()
    ensures Run(SCENES + [LAST], SWITCHES) && PublishesAt(SCENES + [LAST], SWITCHES, 11, MINE)
    ensures ClaimedAt(SCENES + [LAST], SWITCHES, 1, MINE, 1) && SWITCHES[11] == Step.Publish(SWITCHES[1].worker)
    ensures ClaimedAgain(SWITCHES, 1, 11, MINE)
    ensures forall i :: 0 <= i < 12 ==> Eligible(SCENES[i].table, 0)
  {
    var states := SCENES + [LAST];
    forall i ensures StepAt(states, SWITCHES, i) {
      if 0 <= i < 11 {
        RunStep(i);
        assert states[i] == SCENES[i] && states[i + 1] == SCENES[i + 1];
      } else if i == 11 {
        assert states[11] == SCENES[11] && states[12] == LAST && SWITCHES[11] == Step.Publish(1);
      }
    }
    assert OneRow(MODEL, 1).rows[0] == Row(0, 1);
    assert MINE in Keys(OneRow(MODEL, 1));
    assert Claims(SWITCHES[10], MINE);
  }

  lemma RunStep(i: nat)
    requires i < 11
    ensures Leads(i)
  {
    match i
    case 0 => Queued1();
    case 1 => Claimed1();
    case 2 => Claimed2();
    case 3 => Published2();
    case 5 => Queued3();
    case 6 => Claimed3();
    case 7 => Published3();
    case 9 => Queued4();
    case 10 => Claimed4();
    case _ => Configured(i);
  }
}
