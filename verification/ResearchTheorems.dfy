/** What holds of the source-research queue in every run: attempts, results, costs and batch states. */
module ResearchTheorems {
  import opened Wrappers
  import opened Text
  import opened SourceResearch

  /** The database, the claims handed out, and how often each job was claimed and resumed. */
  datatype World = World(db: Db, issued: set<Claim>, claims: map<Id, nat>, resumes: map<Id, nat>)

  datatype Step =
    | CreateStep(command: CreateCommand, normalized: seq<Source>, existing: Option<Id>, ids: seq<Id>)
    | ResumeStep(owner: Text, source: Source)
    | ClaimStep(selected: Option<Id>, worker: Id, lease: int)
    | RenewStep(claim: Claim, lease: int)
    | CheckpointStep(claim: Claim, checkpoint: Text)
    | CompleteStep(claim: Claim, outcome: Outcome)

  function Count(counts: map<Id, nat>, j: Id): nat {
    if j in counts then counts[j] else 0
  }

  /** The world after a claim was handed out. */
  function Granted(w: World, db: Db, claim: Claim): World {
    World(db, w.issued + {claim}, w.claims[claim.job := Count(w.claims, claim.job) + 1], w.resumes)
  }

  /** Rows are ones the queries can have returned, and claims ones that were handed out. */
  ghost predicate Enabled(w: World, s: Step, now: Time) {
    match s
    case CreateStep(c, normalized, existing, ids) =>
      ExistingFor(w.db, c, existing) && multiset(normalized) == multiset(c.sources) && |ids| == |normalized|
    case ResumeStep(_, _) => true
    case ClaimStep(selected, _, _) =>
      selected.Some? ==> selected.value in w.db.jobs && Eligible(SweptJob(w.db.jobs[selected.value], now), now)
    case RenewStep(claim, _) => claim in w.issued
    case CheckpointStep(claim, _) => claim in w.issued
    case CompleteStep(claim, _) => claim in w.issued
  }

  ghost function Apply(w: World, s: Step, now: Time): World
    requires Enabled(w, s, now)
  {
    match s
    case CreateStep(c, normalized, existing, ids) => w.(db := Create(w.db, c, normalized, existing, ids, now).0)
    case ResumeStep(owner, source) =>
      w.(db := ResumeSource(w.db, owner, source, now).0,
         resumes := map j | j in w.db.jobs ::
           Count(w.resumes, j) + if Resumable(w.db.jobs[j], owner, source) then 1 else 0)
    case ClaimStep(selected, worker, lease) =>
      var (u, r) := ClaimNext(w.db, selected, worker, lease, now);
      if r.Ok? && r.value.Some? then Granted(w, u, r.value.value) else w.(db := u)
    case RenewStep(claim, lease) => w.(db := RenewLease(w.db, claim, lease, now).0)
    case CheckpointStep(claim, checkpoint) => w.(db := SaveCheckpoint(w.db, claim, checkpoint, now).0)
    case CompleteStep(claim, outcome) => w.(db := Complete(w.db, claim, outcome, now).0)
  }

  // ---------------------------------------------------------------- the invariant

  /** One job that was claimed and resumed so many times. */
  ghost predicate JobOk(j: Job, claims: nat, resumes: nat) {
    && (j.state == Running <==> j.worker.Some?)
    && (j.state == Running <==> j.leaseExpiresAt.Some?)
    && j.attempts == claims
    && j.attempts <= MAX_ATTEMPTS + resumes
    && (j.state == Running ==> j.attempts >= 1)
    && (j.state == Queued ==> j.attempts < MAX_ATTEMPTS + resumes)
    && (j.state == FailedRetryable ==>
          1 <= j.attempts < MAX_ATTEMPTS && j.nextAttemptAt == Some(j.updatedAt + 1000 * Pow2(j.attempts - 1)))
    && (j.state != Completed && j.state != NoResult ==> j.cost == 0)
    && (j.state == NoResult ==> j.outcome.Reported? && j.outcome.outcome.NoEvidence? && j.outcome.outcome.cost == j.cost)
  }

  ghost predicate JobsOk(w: World) {
    forall j :: j in w.db.jobs ==> JobOk(w.db.jobs[j], Count(w.claims, j), Count(w.resumes, j))
  }

  /** A result row is of a completed job, and carries its batch and its cost. */
  ghost predicate ResultOk(db: Db, k: ResultId)
    requires k in db.results
  {
    && k.job in db.jobs && db.jobs[k.job].state == Completed
    && db.results[k].batch == db.jobs[k.job].batch && db.results[k].cost == db.jobs[k.job].cost
  }

  ghost predicate HasResult(db: Db, j: Id) {
    exists k :: k in db.results && k.job == j
  }

  ghost predicate ResultsOk(db: Db) {
    && (forall k :: k in db.results ==> ResultOk(db, k))
    && (forall k, l :: k in db.results && l in db.results && k.job == l.job ==> k == l)
    && (forall j :: j in db.jobs && db.jobs[j].state == Completed ==> HasResult(db, j))
  }

  ghost predicate Genuine(db: Db, claim: Claim) {
    claim.job in db.jobs && claim.batch == db.jobs[claim.job].batch
  }

  ghost predicate Known(w: World) {
    && (forall claim :: claim in w.issued ==> Genuine(w.db, claim))
    && (forall j :: j in w.db.jobs ==> w.db.jobs[j].batch in w.db.batches)
    && (forall j :: (j in w.claims || j in w.resumes) ==> j in w.db.jobs)
  }

  ghost predicate Inv(w: World) {
    JobsOk(w) && ResultsOk(w.db) && Known(w)
  }

  // ---------------------------------------------------------------- how the database may change

  ghost predicate JobEvolves(before: Job, after: Job) {
    && after.batch == before.batch && after.owner == before.owner && after.source == before.source
    && (Terminal(before.state) ==> after == before)
  }

  /** Jobs keep their identity and freeze when they end; results stay; no batch gets another job. */
  ghost predicate Evolves(t: Db, u: Db) {
    && (forall j :: j in t.jobs ==> j in u.jobs && JobEvolves(t.jobs[j], u.jobs[j]))
    && (forall k :: k in t.results ==> k in u.results && u.results[k] == t.results[k])
    && (forall b :: b in t.batches ==> b in u.batches)
    && (forall j :: j in u.jobs && u.jobs[j].batch in t.batches ==> j in t.jobs)
  }

  lemma EvolvesTransitive(t: Db, u: Db, v: Db)
    requires Evolves(t, u) && Evolves(u, v)
    ensures Evolves(t, v)
  {
  }

  // ---------------------------------------------------------------- each step

  /** The result rows stay in order when no job enters or leaves completion. */
  lemma ResultsFrame(t: Db, u: Db)
    requires ResultsOk(t) && u.results == t.results
    requires forall j :: j in t.jobs && t.jobs[j].state == Completed ==> j in u.jobs && u.jobs[j] == t.jobs[j]
    requires forall j :: j in u.jobs && u.jobs[j].state == Completed ==> j in t.jobs && t.jobs[j].state == Completed
    ensures ResultsOk(u)
  {
    forall j | j in u.jobs && u.jobs[j].state == Completed ensures HasResult(u, j) {
      assert HasResult(t, j);
    }
    forall k | k in u.results ensures ResultOk(u, k) {
      assert ResultOk(t, k);
    }
  }

  /** Jobs rewritten in place, none of them ended, none into completion. */
  lemma UpdateKeepsInv(w: World, v: World)
    requires Inv(w) && v.db.jobs.Keys == w.db.jobs.Keys && v.db.results == w.db.results && v.db.batches.Keys == w.db.batches.Keys
    requires forall claim :: claim in v.issued ==> claim in w.issued || Genuine(v.db, claim)
    requires forall j :: j in v.claims || j in v.resumes ==> j in v.db.jobs
    requires forall j :: j in w.db.jobs ==>
               && JobEvolves(w.db.jobs[j], v.db.jobs[j])
               && JobOk(v.db.jobs[j], Count(v.claims, j), Count(v.resumes, j))
               && (w.db.jobs[j].state != Completed ==> v.db.jobs[j].state != Completed)
    ensures Inv(v) && Evolves(w.db, v.db)
  {
    hide JobOk, ResultsOk;
    ResultsFrame(w.db, v.db);
  }

  /** One running job that has no result rewritten. */
  lemma RewriteKeepsInv(w: World, v: World, id: Id, job: Job)
    requires Inv(w) && id in w.db.jobs && v == w.(db := v.db)
    requires v.db.jobs == w.db.jobs[id := job] && v.db.results == w.db.results && v.db.batches.Keys == w.db.batches.Keys
    requires JobOk(job, Count(w.claims, id), Count(w.resumes, id)) && JobEvolves(w.db.jobs[id], job)
    requires w.db.jobs[id].state != Completed && job.state != Completed
    ensures Inv(v) && Evolves(w.db, v.db)
  {
    hide ResultsOk, JobOk;
    assert JobsOk(w) && Known(w);
    hide Inv, Evolves;
    UpdateKeepsInv(w, v);
  }

  lemma ResultAdded(t: Db, u: Db, k: ResultId)
    requires ResultsOk(t) && k.job in t.jobs && k.job in u.jobs && k in u.results
    requires t.jobs[k.job].state == Running && u.jobs[k.job].state == Completed
    requires u.results == t.results[k := u.results[k]] && u.jobs == t.jobs[k.job := u.jobs[k.job]]
    requires u.results[k].batch == u.jobs[k.job].batch && u.results[k].cost == u.jobs[k.job].cost
    ensures ResultsOk(u) && k !in t.results
  {
    forall l | l in t.results ensures l.job != k.job {
      assert ResultOk(t, l);
    }
    forall j | j in u.jobs && u.jobs[j].state == Completed ensures HasResult(u, j) {
      if j == k.job {
        assert k in u.results;
      } else {
        assert HasResult(t, j);
        var l :| l in t.results && l.job == j;
        assert l in u.results;
      }
    }
    forall l | l in u.results ensures ResultOk(u, l) {
      if l != k {
        assert ResultOk(t, l);
      }
    }
  }

  /** The evidence of a running job: its only result row, and its completion. */
  lemma EvidenceKeepsInv(w: World, v: World, id: Id, k: ResultId, row: ResultRow, job: Job)
    requires Inv(w) && id in w.db.jobs && v == w.(db := v.db) && k.job == id
    requires v.db.jobs == w.db.jobs[id := job] && v.db.results == w.db.results[k := row] && v.db.batches.Keys == w.db.batches.Keys
    requires JobOk(job, Count(w.claims, id), Count(w.resumes, id)) && JobEvolves(w.db.jobs[id], job)
    requires w.db.jobs[id].state == Running && job.state == Completed && row.batch == job.batch && row.cost == job.cost
    ensures Inv(v) && Evolves(w.db, v.db)
  {
    hide JobOk, ResultsOk;
    ResultAdded(w.db, v.db, k);
  }

  lemma BackoffNeverCapped(attempts: nat)
    requires 1 <= attempts < MAX_ATTEMPTS
    ensures Backoff(attempts) == 1000 * Pow2(attempts - 1) <= 8000
  {
    assert Pow2(0) == 1 && Pow2(1) == 2 && Pow2(2) == 4 && Pow2(3) == 8;
  }

  lemma ConcludedOk(j: Job, o: Outcome, now: Time, claims: nat, resumes: nat)
    requires JobOk(j, claims, resumes) && j.state == Running && OutcomeCost(o) >= 0
    ensures JobOk(Concluded(j, o, now), claims, resumes) && JobEvolves(j, Concluded(j, o, now))
    ensures Concluded(j, o, now).state == Completed <==> o.Evidence?
    ensures Concluded(j, o, now).cost == OutcomeCost(o)
  {
    if 1 <= j.attempts < MAX_ATTEMPTS {
      BackoffNeverCapped(j.attempts);
    }
  }

  lemma CompleteKeepsInv(w: World, claim: Claim, o: Outcome, now: Time)
    requires Inv(w) && claim in w.issued
    ensures var v := w.(db := Complete(w.db, claim, o, now).0); Inv(v) && Evolves(w.db, v.db)
  {
    var (u, r) := Complete(w.db, claim, o, now);
    var v := w.(db := u);
    if r == Done {
      var j := w.db.jobs[claim.job];
      assert JobOk(j, Count(w.claims, claim.job), Count(w.resumes, claim.job)) && Genuine(w.db, claim);
      ConcludedOk(j, o, now, Count(w.claims, claim.job), Count(w.resumes, claim.job));
      hide JobOk, Inv, Concluded;
      if o.Evidence? {
        var k := ResultId(claim.job, o.key);
        EvidenceKeepsInv(w, v, claim.job, k, u.results[k], u.jobs[claim.job]);
      } else {
        RewriteKeepsInv(w, v, claim.job, u.jobs[claim.job]);
      }
    }
  }

  lemma ResumeKeepsInv(w: World, owner: Text, source: Source, now: Time)
    requires Inv(w) && Enabled(w, ResumeStep(owner, source), now)
    ensures var v := Apply(w, ResumeStep(owner, source), now); Inv(v) && Evolves(w.db, v.db)
  {
    hide ResultsOk;
    var v := Apply(w, ResumeStep(owner, source), now);
    forall j | j in w.db.jobs
      ensures JobOk(v.db.jobs[j], Count(v.claims, j), Count(v.resumes, j)) && JobEvolves(w.db.jobs[j], v.db.jobs[j])
      ensures w.db.jobs[j].state != Completed ==> v.db.jobs[j].state != Completed
    {
      assert JobOk(w.db.jobs[j], Count(w.claims, j), Count(w.resumes, j));
    }
    hide JobOk, Inv, JobEvolves;
    UpdateKeepsInv(w, v);
  }

  lemma SweepKeepsInv(w: World, now: Time)
    requires Inv(w)
    ensures var v := w.(db := Sweep(w.db, now)); Inv(v) && Evolves(w.db, v.db)
  {
    var v := w.(db := Sweep(w.db, now));
    forall j | j in w.db.jobs
      ensures JobOk(v.db.jobs[j], Count(v.claims, j), Count(v.resumes, j)) && JobEvolves(w.db.jobs[j], v.db.jobs[j])
      ensures w.db.jobs[j].state != Completed ==> v.db.jobs[j].state != Completed
    {
      assert JobOk(w.db.jobs[j], Count(w.claims, j), Count(w.resumes, j));
    }
    assert Known(w);
    hide JobOk, Inv, JobEvolves;
    UpdateKeepsInv(w, v);
  }

  /** A claim of an eligible job, once the sweep is done. */
  lemma GrantKeepsInv(w: World, id: Id, worker: Id, lease: int, now: Time)
    requires Inv(w) && id in w.db.jobs && Eligible(w.db.jobs[id], now)
    ensures var v := Granted(w, w.db.(jobs := w.db.jobs[id := ClaimedJob(w.db.jobs[id], worker, lease, now)]),
                             ClaimOf(id, w.db.jobs[id], worker));
            Inv(v) && Evolves(w.db, v.db)
  {
    var job := w.db.jobs[id];
    var v := Granted(w, w.db.(jobs := w.db.jobs[id := ClaimedJob(job, worker, lease, now)]), ClaimOf(id, w.db.jobs[id], worker));
    hide ResultsOk, Evolves;
    ClaimedIsOk(job, worker, lease, now, Count(w.claims, id), Count(w.resumes, id));
    hide JobOk, ClaimedJob, Eligible;
    UpdateKeepsInv(w, v);
  }

  lemma ClaimedIsOk(job: Job, worker: Id, lease: int, now: Time, claims: nat, resumes: nat)
    requires JobOk(job, claims, resumes) && Eligible(job, now)
    ensures var claimed := ClaimedJob(job, worker, lease, now);
            && JobOk(claimed, claims + 1, resumes) && JobEvolves(job, claimed)
            && job.state != Completed && claimed.state != Completed && claimed.batch == job.batch
  {
  }

  /** What a claim step does, case by case. */
  lemma ClaimCases(w: World, selected: Option<Id>, worker: Id, lease: int, now: Time)
    requires Enabled(w, ClaimStep(selected, worker, lease), now)
    ensures selected.Some? ==> selected.value in w.db.jobs && Eligible(SweptJob(w.db.jobs[selected.value], now), now)
    ensures var (v, swept) := (Apply(w, ClaimStep(selected, worker, lease), now), Sweep(w.db, now));
            v == if lease <= 0 then w
                 else if selected.None? then w.(db := swept)
                 else Granted(w, swept.(jobs := swept.jobs[selected.value := ClaimedJob(swept.jobs[selected.value], worker, lease, now)]),
                              ClaimOf(selected.value, swept.jobs[selected.value], worker))
  {
    hide SweptJob, Eligible, ClaimedJob;
  }

  lemma EvolvesSelf(db: Db)
    ensures Evolves(db, db)
  {
  }

  lemma ClaimKeepsInv(w: World, selected: Option<Id>, worker: Id, lease: int, now: Time)
    requires Inv(w) && Enabled(w, ClaimStep(selected, worker, lease), now)
    ensures var v := Apply(w, ClaimStep(selected, worker, lease), now); Inv(v) && Evolves(w.db, v.db)
  {
    hide Inv, Evolves, Apply, Enabled, Granted, Sweep, ClaimedJob, SweptJob, Eligible;
    EvolvesSelf(w.db);
    ClaimCases(w, selected, worker, lease, now);
    SweepKeepsInv(w, now);
    if selected.Some? {
      SelectedKeepsInv(w, selected.value, worker, lease, now);
    }
  }

  lemma SelectedKeepsInv(w: World, id: Id, worker: Id, lease: int, now: Time)
    requires Inv(w) && id in w.db.jobs && Eligible(SweptJob(w.db.jobs[id], now), now)
    ensures var swept := Sweep(w.db, now);
            var v := Granted(w, swept.(jobs := swept.jobs[id := ClaimedJob(swept.jobs[id], worker, lease, now)]),
                             ClaimOf(id, swept.jobs[id], worker));
            Inv(v) && Evolves(w.db, v.db)
  {
    hide Inv, Evolves, ClaimedJob, SweptJob, Eligible;
    var swept := w.(db := Sweep(w.db, now));
    SweepKeepsInv(w, now);
    GrantKeepsInv(swept, id, worker, lease, now);
    var u := swept.db.(jobs := swept.db.jobs[id := ClaimedJob(swept.db.jobs[id], worker, lease, now)]);
    EvolvesTransitive(w.db, swept.db, u);
  }

  lemma {:induction false} AddedJobs(jobs: map<Id, Job>, c: CreateCommand, sources: seq<Source>, ids: seq<Id>, now: Time)
    requires |ids| == |sources| && Fresh(jobs, ids)
    ensures var added := AddJobs(jobs, c, sources, ids, now);
            && (forall j :: j in jobs ==> j in added && added[j] == jobs[j])
            && (forall j :: j in added && j !in jobs ==> exists i :: 0 <= i < |sources| && added[j] == NewJob(c, sources[i], now))
  {
    if sources != [] {
      var n := |sources| - 1;
      AddedJobs(jobs, c, sources[..n], ids[..n], now);
      assert ids[n] !in jobs;
      var before, added := AddJobs(jobs, c, sources[..n], ids[..n], now), AddJobs(jobs, c, sources, ids, now);
      forall j | j in added && j !in jobs ensures exists i :: 0 <= i < |sources| && added[j] == NewJob(c, sources[i], now) {
        if j == ids[n] {
          assert added[j] == NewJob(c, sources[n], now);
        } else {
          var i :| 0 <= i < n && before[j] == NewJob(c, sources[..n][i], now);
          assert added[j] == NewJob(c, sources[i], now);
        }
      }
    }
  }

  lemma CreateKeepsInv(w: World, c: CreateCommand, normalized: seq<Source>, existing: Option<Id>, ids: seq<Id>, now: Time)
    requires Inv(w) && Enabled(w, CreateStep(c, normalized, existing, ids), now)
    ensures var v := Apply(w, CreateStep(c, normalized, existing, ids), now); Inv(v) && Evolves(w.db, v.db)
  {
    hide AddJobs, Invalid, ResultsOk;
    var v := Apply(w, CreateStep(c, normalized, existing, ids), now);
    if v.db != w.db {
      AddedJobs(w.db.jobs, c, normalized, ids, now);
      forall j | j in v.db.jobs ensures JobOk(v.db.jobs[j], Count(v.claims, j), Count(v.resumes, j)) {
        if j in w.db.jobs {
          assert JobOk(w.db.jobs[j], Count(w.claims, j), Count(w.resumes, j));
        } else {
          assert Count(w.claims, j) == 0 && Count(w.resumes, j) == 0;
        }
      }
      hide JobOk;
      ResultsFrame(w.db, v.db);
    }
  }

  lemma HeldKeepsInv(w: World, claim: Claim, job: Job, now: Time)
    requires Inv(w) && Holds(w.db, claim, now)
    requires job == w.db.jobs[claim.job].(leaseExpiresAt := job.leaseExpiresAt, checkpoint := job.checkpoint, updatedAt := now)
    requires job.leaseExpiresAt.Some?
    ensures var v := w.(db := w.db.(jobs := w.db.jobs[claim.job := job])); Inv(v) && Evolves(w.db, v.db)
  {
    assert JobOk(w.db.jobs[claim.job], Count(w.claims, claim.job), Count(w.resumes, claim.job));
    RewriteKeepsInv(w, w.(db := w.db.(jobs := w.db.jobs[claim.job := job])), claim.job, job);
  }

  lemma RenewKeepsInv(w: World, claim: Claim, lease: int, now: Time)
    requires Inv(w) && claim in w.issued
    ensures var v := w.(db := RenewLease(w.db, claim, lease, now).0); Inv(v) && Evolves(w.db, v.db)
  {
    hide Inv, Evolves, JobOk;
    EvolvesSelf(w.db);
    if lease > 0 && Holds(w.db, claim, now) {
      HeldKeepsInv(w, claim, w.db.jobs[claim.job].(leaseExpiresAt := Some(now + lease), updatedAt := now), now);
    }
  }

  lemma CheckpointKeepsInv(w: World, claim: Claim, checkpoint: Text, now: Time)
    requires Inv(w) && claim in w.issued
    ensures var v := w.(db := SaveCheckpoint(w.db, claim, checkpoint, now).0); Inv(v) && Evolves(w.db, v.db)
  {
    EvolvesSelf(w.db);
    if Holds(w.db, claim, now) {
      assert JobOk(w.db.jobs[claim.job], Count(w.claims, claim.job), Count(w.resumes, claim.job));
      hide Inv, Evolves;
      HeldKeepsInv(w, claim, w.db.jobs[claim.job].(checkpoint := Some(checkpoint), updatedAt := now), now);
    }
  }

  lemma StepKeepsInv(w: World, s: Step, now: Time)
    requires Inv(w) && Enabled(w, s, now)
    ensures Inv(Apply(w, s, now)) && Evolves(w.db, Apply(w, s, now).db)
  {
    hide Inv, Evolves, Create, ClaimNext, RenewLease, SaveCheckpoint, Complete, ResumeSource;
    match s
    case CreateStep(c, normalized, existing, ids) => CreateKeepsInv(w, c, normalized, existing, ids, now);
    case ResumeStep(owner, source) => ResumeKeepsInv(w, owner, source, now);
    case ClaimStep(selected, worker, lease) => ClaimKeepsInv(w, selected, worker, lease, now);
    case RenewStep(claim, lease) => RenewKeepsInv(w, claim, lease, now);
    case CheckpointStep(claim, checkpoint) => CheckpointKeepsInv(w, claim, checkpoint, now);
    case CompleteStep(claim, outcome) => CompleteKeepsInv(w, claim, outcome, now);
  }

  // ---------------------------------------------------------------- runs

  datatype TimedStep = At(step: Step, now: Time)

  ghost predicate IsRun(worlds: seq<World>, steps: seq<TimedStep>) {
    && |worlds| == |steps| + 1
    && worlds[0] == World(EMPTY, {}, map[], map[])
    && forall i :: 0 <= i < |steps| ==>
         Enabled(worlds[i], steps[i].step, steps[i].now) && worlds[i + 1] == Apply(worlds[i], steps[i].step, steps[i].now)
  }

  lemma {:induction false} RunKeepsInv(worlds: seq<World>, steps: seq<TimedStep>, i: nat, j: nat)
    requires IsRun(worlds, steps) && i <= j < |worlds|
    ensures Inv(worlds[i]) && Evolves(worlds[i].db, worlds[j].db)
    decreases j
  {
    hide Apply, Enabled;
    if j == 0 {
    } else {
      RunKeepsInv(worlds, steps, j - 1, j - 1);
      StepKeepsInv(worlds[j - 1], steps[j - 1].step, steps[j - 1].now);
      if i < j {
        RunKeepsInv(worlds, steps, i, j - 1);
        EvolvesTransitive(worlds[i].db, worlds[j - 1].db, worlds[j].db);
      }
    }
  }

  // ---------------------------------------------------------------- attempts

  /** A job is claimed at most five times and once more for every resume. */
  lemma ClaimsAreBounded(worlds: seq<World>, steps: seq<TimedStep>, i: nat, j: Id)
    requires IsRun(worlds, steps) && i < |worlds|
    ensures Count(worlds[i].claims, j) <= MAX_ATTEMPTS + Count(worlds[i].resumes, j)
    ensures j in worlds[i].db.jobs ==> worlds[i].db.jobs[j].attempts == Count(worlds[i].claims, j)
  {
    hide IsRun, ResultsOk;
    RunKeepsInv(worlds, steps, i, i);
    if j in worlds[i].db.jobs {
      assert JobOk(worlds[i].db.jobs[j], Count(worlds[i].claims, j), Count(worlds[i].resumes, j));
    }
  }

  /** A job that waits for a retry was attempted one to four times, and its delay doubles from a second to eight. */
  lemma RetriesBackOff(worlds: seq<World>, steps: seq<TimedStep>, i: nat, j: Id)
    requires IsRun(worlds, steps) && i < |worlds|
    requires j in worlds[i].db.jobs && worlds[i].db.jobs[j].state == FailedRetryable
    ensures var job := worlds[i].db.jobs[j];
            && 1 <= job.attempts <= 4
            && job.nextAttemptAt == Some(job.updatedAt + 1000 * Pow2(job.attempts - 1))
            && 1000 * Pow2(job.attempts - 1) <= 8000
  {
    hide IsRun, ResultsOk;
    RunKeepsInv(worlds, steps, i, i);
    assert JobOk(worlds[i].db.jobs[j], Count(worlds[i].claims, j), Count(worlds[i].resumes, j));
    BackoffNeverCapped(worlds[i].db.jobs[j].attempts);
  }

  // ---------------------------------------------------------------- results

  /** A job is completed exactly when it has a result row, and then it has one only. */
  lemma CompletedIffOneResult(worlds: seq<World>, steps: seq<TimedStep>, i: nat, j: Id)
    requires IsRun(worlds, steps) && i < |worlds| && j in worlds[i].db.jobs
    ensures worlds[i].db.jobs[j].state == Completed
            <==> exists k :: k in worlds[i].db.results && k.job == j
                   && forall l :: l in worlds[i].db.results && l.job == j ==> l == k
  {
    hide IsRun, JobsOk, Known;
    RunKeepsInv(worlds, steps, i, i);
    var db := worlds[i].db;
    if db.jobs[j].state == Completed {
      assert HasResult(db, j);
      var k :| k in db.results && k.job == j;
      assert forall l :: l in db.results && l.job == j ==> l == k;
    }
  }

  /** Evidence that was committed is never committed again: a repeated completion changes nothing. */
  lemma EvidenceCommitsOnce(worlds: seq<World>, steps: seq<TimedStep>, i: nat, j: nat, claim: Claim, o: Outcome, again: Claim, later: Time)
    requires IsRun(worlds, steps) && i < |steps| && i < j < |worlds| && o.Evidence? && again.job == claim.job
    requires steps[i].step == CompleteStep(claim, o) && Complete(worlds[i].db, claim, o, steps[i].now).1 in {Done, AlreadyDone}
    ensures Complete(worlds[j].db, again, o, later) == (worlds[j].db, AlreadyDone)
  {
    var k := ResultId(claim.job, o.key);
    assert k in worlds[i + 1].db.results;
    hide IsRun, Inv, Complete, Apply, Enabled;
    RunKeepsInv(worlds, steps, i + 1, j);
  }

  // ---------------------------------------------------------------- batches

  /** A batch is completed or failed exactly when all its jobs have ended, and failed exactly when one of them failed. */
  lemma BatchStateIff(jobs: seq<Job>)
    ensures StateOf(jobs) == BatchCompleted || StateOf(jobs) == BatchFailed
            <==> forall i :: 0 <= i < |jobs| ==> Terminal(jobs[i].state)
    ensures StateOf(jobs) == BatchFailed
            <==> (forall i :: 0 <= i < |jobs| ==> Terminal(jobs[i].state)) && exists i :: 0 <= i < |jobs| && jobs[i].state == FailedFinal
  {
  }

  /** Once a batch is completed or failed, whoever reads it finds the same jobs, state and cost. */
  lemma EndedBatchStays(worlds: seq<World>, steps: seq<TimedStep>, i: nat, j: nat, batch: Id, rows: seq<Id>)
    requires IsRun(worlds, steps) && i <= j < |worlds| && batch in worlds[i].db.batches
    requires Lists(worlds[i].db, batch, rows)
    requires StateOf(Rows(worlds[i].db, rows)) in {BatchCompleted, BatchFailed}
    ensures Lists(worlds[j].db, batch, rows) && Rows(worlds[j].db, rows) == Rows(worlds[i].db, rows)
  {
    RunKeepsInv(worlds, steps, i, j);
    EndedRowsStay(worlds[i].db, worlds[j].db, batch, rows);
  }

  lemma EndedRowsStay(t: Db, u: Db, batch: Id, rows: seq<Id>)
    requires Evolves(t, u) && batch in t.batches && Lists(t, batch, rows)
    requires StateOf(Rows(t, rows)) in {BatchCompleted, BatchFailed}
    ensures Lists(u, batch, rows) && Rows(u, rows) == Rows(t, rows)
  {
    BatchStateIff(Rows(t, rows));
    hide StateOf;
    assert forall k :: 0 <= k < |rows| ==> Rows(t, rows)[k] == t.jobs[rows[k]];
    forall k | 0 <= k < |rows| ensures u.jobs[rows[k]] == t.jobs[rows[k]] {
      assert Terminal(Rows(t, rows)[k].state);
    }
    forall id | id in u.jobs && u.jobs[id].batch == batch ensures id in rows {
      assert id in t.jobs && JobEvolves(t.jobs[id], u.jobs[id]);
    }
  }

  // ---------------------------------------------------------------- cost

  ghost function Sum<K(!new)>(s: set<K>, f: K -> nat): nat {
    if s == {} then 0
    else
      var x :| x in s;
      f(x) + Sum(s - {x}, f)
  }

  /** The sum does not depend on the order of its terms. */
  lemma {:induction false} SumTakesOut<K(!new)>(s: set<K>, f: K -> nat, x: K)
    requires x in s
    ensures Sum(s, f) == f(x) + Sum(s - {x}, f)
    decreases |s|
  {
    var y :| y in s && Sum(s, f) == f(y) + Sum(s - {y}, f);
    if y != x {
      SumTakesOut(s - {y}, f, x);
      SumTakesOut(s - {x}, f, y);
      assert s - {y} - {x} == s - {x} - {y};
    }
  }

  ghost function ResultCost(db: Db): ResultId -> nat {
    k => if k in db.results then db.results[k].cost else 0
  }

  /** The cost that a job without result reported. */
  ghost function NoResultCost(db: Db): Id -> nat {
    j => if j in db.jobs && db.jobs[j].outcome.Reported? && OutcomeCost(db.jobs[j].outcome.outcome) >= 0
         then OutcomeCost(db.jobs[j].outcome.outcome) else 0
  }

  ghost function ResultsOf(db: Db, jobs: set<Id>): set<ResultId> {
    set k | k in db.results && k.job in jobs
  }

  ghost function NoResultsOf(db: Db, jobs: set<Id>): set<Id> {
    set j | j in jobs && j in db.jobs && db.jobs[j].state == NoResult
  }

  ghost function Members(rows: seq<Id>): set<Id> {
    set i | 0 <= i < |rows| :: rows[i]
  }

  /** One more job: its cost is that of its result row, or the one it reported without a result, or nothing. */
  lemma JobAddsItsCost(w: World, jobs: set<Id>, j: Id)
    requires Inv(w) && j in w.db.jobs && j !in jobs
    ensures Sum(ResultsOf(w.db, jobs + {j}), ResultCost(w.db)) + Sum(NoResultsOf(w.db, jobs + {j}), NoResultCost(w.db))
            == Sum(ResultsOf(w.db, jobs), ResultCost(w.db)) + Sum(NoResultsOf(w.db, jobs), NoResultCost(w.db)) + w.db.jobs[j].cost
  {
    var (db, more) := (w.db, jobs + {j});
    assert JobOk(db.jobs[j], Count(w.claims, j), Count(w.resumes, j));
    hide JobOk, JobsOk, Known;
    if db.jobs[j].state == Completed {
      assert HasResult(db, j);
      var k :| k in db.results && k.job == j;
      assert ResultOk(db, k);
      assert ResultsOf(db, more) - {k} == ResultsOf(db, jobs) && NoResultsOf(db, more) == NoResultsOf(db, jobs);
      SumTakesOut(ResultsOf(db, more), ResultCost(db), k);
    } else {
      forall k | k in db.results ensures k.job != j {
        assert ResultOk(db, k);
      }
      assert ResultsOf(db, more) == ResultsOf(db, jobs);
      if db.jobs[j].state == NoResult {
        assert NoResultsOf(db, more) - {j} == NoResultsOf(db, jobs);
        SumTakesOut(NoResultsOf(db, more), NoResultCost(db), j);
      } else {
        assert NoResultsOf(db, more) == NoResultsOf(db, jobs);
      }
    }
  }

  lemma {:induction false} RowsAddUp(w: World, rows: seq<Id>)
    requires Inv(w) && Distinct(rows) && forall i :: 0 <= i < |rows| ==> rows[i] in w.db.jobs
    ensures CostOf(Rows(w.db, rows))
            == Sum(ResultsOf(w.db, Members(rows)), ResultCost(w.db)) + Sum(NoResultsOf(w.db, Members(rows)), NoResultCost(w.db))
  {
    hide Inv;
    if rows == [] {
      assert ResultsOf(w.db, {}) == {} && NoResultsOf(w.db, {}) == {};
      assert Members([]) == {};
    } else {
      var n := |rows| - 1;
      RowsAddUp(w, rows[..n]);
      JobAddsItsCost(w, Members(rows[..n]), rows[n]);
      assert Members(rows) == Members(rows[..n]) + {rows[n]} by {
        assert rows == rows[..n] + [rows[n]];
      }
      assert Rows(w.db, rows)[..n] == Rows(w.db, rows[..n]);
    }
  }

  /** The cost of a batch is the cost of all its result rows and of all its jobs that ended without one. */
  lemma BatchCostIsConserved(worlds: seq<World>, steps: seq<TimedStep>, i: nat, batch: Id, rows: seq<Id>)
    requires IsRun(worlds, steps) && i < |worlds| && Lists(worlds[i].db, batch, rows)
    ensures var db := worlds[i].db;
            CostOf(Rows(db, rows))
            == Sum((set k | k in db.results && db.results[k].batch == batch), ResultCost(db))
               + Sum((set j | j in db.jobs && db.jobs[j].batch == batch && db.jobs[j].state == NoResult), NoResultCost(db))
  {
    hide IsRun, JobsOk, Known, Evolves;
    RunKeepsInv(worlds, steps, i, i);
    var db := worlds[i].db;
    RowsAddUp(worlds[i], rows);
    forall k | k in db.results ensures db.results[k].batch == batch <==> k.job in Members(rows) {
      assert ResultOk(db, k);
      if k.job in rows {
        var m :| 0 <= m < |rows| && rows[m] == k.job;
      }
    }
    assert (set k | k in db.results && db.results[k].batch == batch) == ResultsOf(db, Members(rows));
    assert (set j | j in db.jobs && db.jobs[j].batch == batch && db.jobs[j].state == NoResult) == NoResultsOf(db, Members(rows));
  }

  /** A committed completion adds exactly the cost of its outcome to the cost of its job, and only once. */
  lemma CompletionAddsItsCost(w: World, claim: Claim, o: Outcome, now: Time)
    requires Inv(w) && claim in w.issued
    ensures var (u, r) := Complete(w.db, claim, o, now);
            forall j :: j in w.db.jobs ==>
              && j in u.jobs
              && u.jobs[j].cost == w.db.jobs[j].cost + if r == Done && j == claim.job then OutcomeCost(o) else 0
  {
    var (u, r) := Complete(w.db, claim, o, now);
    if r == Done {
      assert JobOk(w.db.jobs[claim.job], Count(w.claims, claim.job), Count(w.resumes, claim.job));
      ConcludedOk(w.db.jobs[claim.job], o, now, Count(w.claims, claim.job), Count(w.resumes, claim.job));
    }
  }
}
