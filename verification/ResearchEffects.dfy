/** What each outcome, claim and renewal means for when a job can be claimed next, and by whom it can be concluded. */
module ResearchEffects {
  import opened Wrappers
  import opened Text
  import opened SourceResearch
  import opened ResearchTheorems

  /** The claiming query may return the job at `x`. */
  ghost predicate MayBeClaimed(db: Db, id: Id, x: Time) {
    id in db.jobs && Eligible(SweptJob(db.jobs[id], x), x)
  }

  /** A worker's claim of the job is good at `x`: its updates and its outcome are taken. */
  ghost predicate GoodFor(db: Db, id: Id, worker: Id, x: Time) {
    forall claim: Claim :: claim.job == id && claim.worker == worker ==> Holds(db, claim, x)
  }

  // ---------------------------------------------------------------- which steps touch a job

  /** The step may write the row of job `id`. */
  ghost predicate Touches(db: Db, s: Step, id: Id) {
    match s
    case CreateStep(_, _, _, _) => false
    case ResumeStep(owner, source) => id in db.jobs && Resumable(db.jobs[id], owner, source)
    case ClaimStep(selected, _, lease) => selected == Some(id) && lease > 0
    case RenewStep(claim, _) => claim.job == id
    case CheckpointStep(claim, _) => claim.job == id
    case CompleteStep(claim, _) => claim.job == id
  }

  /** Any other step leaves a job alone that is not running on a used-up lease. */
  lemma UntouchedStays(w: World, s: Step, now: Time, id: Id)
    requires Enabled(w, s, now) && id in w.db.jobs && !Touches(w.db, s, id)
    requires w.db.jobs[id].state == Running ==> !LeaseOver(w.db.jobs[id], now)
    ensures var u := Apply(w, s, now).db; id in u.jobs && u.jobs[id] == w.db.jobs[id]
  {
    hide Invalid, AddJobs, ExistingFor;
    match s
    case CreateStep(c, normalized, _, ids) =>
      if Fresh(w.db.jobs, ids) {
        AddedJobs(w.db.jobs, c, normalized, ids, now);
      }
    case ResumeStep(_, _) =>
    case ClaimStep(selected, worker, lease) => ClaimCases(w, selected, worker, lease, now);
    case RenewStep(_, _) =>
    case CheckpointStep(_, _) =>
    case CompleteStep(_, o) =>
  }

  /** The world, orderly, before and after step `i`, and orderly at every later state. */
  lemma AroundStep(worlds: seq<World>, steps: seq<TimedStep>, i: nat, j: nat)
    requires IsRun(worlds, steps) && i < |steps| && i < j < |worlds|
    ensures Inv(worlds[i]) && Inv(worlds[i + 1]) && Inv(worlds[j]) && Evolves(worlds[i + 1].db, worlds[j].db)
    ensures Enabled(worlds[i], steps[i].step, steps[i].now) && worlds[i + 1] == Apply(worlds[i], steps[i].step, steps[i].now)
  {
    hide Inv, Evolves, Apply, Enabled;
    RunKeepsInv(worlds, steps, i, i);
    RunKeepsInv(worlds, steps, i + 1, j);
    RunKeepsInv(worlds, steps, j, j);
  }

  // ---------------------------------------------------------------- outcomes

  /** Step `i` concludes a claim of job `id` with the outcome. */
  ghost predicate ConcludesAt(worlds: seq<World>, steps: seq<TimedStep>, i: nat, id: Id, o: Outcome) {
    && i < |steps| < |worlds| && steps[i].step.CompleteStep? && steps[i].step.claim.job == id && steps[i].step.outcome == o
    && Complete(worlds[i].db, steps[i].step.claim, o, steps[i].now).1 == Done
  }

  /** What a concluded outcome makes of the job, spelled out for each kind. */
  ghost predicate JobTells(before: Job, after: Job, o: Outcome, now: Time) {
    && after.worker.None? && after.leaseExpiresAt.None? && after.attempts == before.attempts && after.updatedAt == now
    && after.batch == before.batch && after.owner == before.owner && after.source == before.source && after.checkpoint == before.checkpoint
    && match o
       case Evidence(_, _, _, cost) => after.state == Completed && after.cost == cost
       case NoEvidence(_, cost) => after.state == NoResult && after.cost == cost && after.outcome == Reported(o)
       case Challenge(_) => after.state == WaitingLogin && after.outcome == Reported(o)
       case Failure(true, _) =>
         && after.outcome == Reported(o) && before.attempts >= 1
         && (if before.attempts < 5
             then after.state == FailedRetryable && after.nextAttemptAt == Some(now + 1000 * Pow2(before.attempts - 1))
             else after.state == FailedFinal)
       case Failure(false, _) => after.state == FailedFinal && after.outcome == Reported(o)
  }

  lemma DoneMeans(db: Db, claim: Claim, o: Outcome, now: Time)
    requires Complete(db, claim, o, now).1 == Done
    ensures Holds(db, claim, now) && OutcomeCost(o) >= 0
    ensures var u := Complete(db, claim, o, now).0;
            claim.job in u.jobs && u.jobs[claim.job] == Concluded(db.jobs[claim.job], o, now)
  {
    hide Concluded;
  }

  lemma ConclusionTells(w: World, claim: Claim, o: Outcome, now: Time)
    requires Inv(w) && Complete(w.db, claim, o, now).1 == Done
    ensures claim.job in w.db.jobs && w.db.jobs[claim.job].attempts >= 1
    ensures var u := Complete(w.db, claim, o, now).0; claim.job in u.jobs && JobTells(w.db.jobs[claim.job], u.jobs[claim.job], o, now)
  {
    hide Complete;
    DoneMeans(w.db, claim, o, now);
    var j := w.db.jobs[claim.job];
    assert JobOk(j, Count(w.claims, claim.job), Count(w.resumes, claim.job));
    if j.attempts < MAX_ATTEMPTS {
      BackoffNeverCapped(j.attempts);
    }
    hide Inv, Backoff, Pow2;
  }

  lemma AfterConclusion(worlds: seq<World>, steps: seq<TimedStep>, i: nat, j: nat, id: Id, o: Outcome)
    requires IsRun(worlds, steps) && ConcludesAt(worlds, steps, i, id, o) && i < j < |worlds|
    ensures Inv(worlds[i + 1]) && Inv(worlds[j]) && Evolves(worlds[i + 1].db, worlds[j].db)
    ensures id in worlds[i].db.jobs && id in worlds[i + 1].db.jobs && id in worlds[j].db.jobs && worlds[i].db.jobs[id].attempts >= 1
    ensures JobTells(worlds[i].db.jobs[id], worlds[i + 1].db.jobs[id], o, steps[i].now)
    ensures JobEvolves(worlds[i + 1].db.jobs[id], worlds[j].db.jobs[id])
  {
    hide IsRun, Inv, JobTells, Complete;
    AroundStep(worlds, steps, i, j);
    ConclusionTells(worlds[i], steps[i].step.claim, o, steps[i].now);
    hide JobEvolves;
  }

  /** The outcome is the last word on the job. */
  ghost predicate Ends(before: Job, o: Outcome) {
    match o
    case Challenge(_) => false
    case Failure(retryable, _) => !retryable || before.attempts >= 5
    case _ => true
  }

  /** After evidence, no result, a final failure, or a retryable one of a fifth or later attempt, the job is never claimed again. */
  lemma EndedIsNeverClaimed(worlds: seq<World>, steps: seq<TimedStep>, i: nat, j: nat, id: Id, o: Outcome, x: Time)
    requires IsRun(worlds, steps) && ConcludesAt(worlds, steps, i, id, o) && i < j < |worlds|
    requires id in worlds[i].db.jobs && Ends(worlds[i].db.jobs[id], o)
    ensures !MayBeClaimed(worlds[j].db, id, x)
    ensures id in worlds[j].db.jobs
    ensures worlds[j].db.jobs[id].state == (if o.Evidence? then Completed else if o.NoEvidence? then NoResult else FailedFinal)
  {
    AfterConclusion(worlds, steps, i, j, id, o);
    hide IsRun, Inv, ConcludesAt, Evolves;
  }

  /** While nothing claims it, a job that does not run and does not wait for a login stays as it is. */
  lemma {:induction false} IdleStays(worlds: seq<World>, steps: seq<TimedStep>, i: nat, j: nat, id: Id)
    requires IsRun(worlds, steps) && i <= j < |worlds| && id in worlds[i].db.jobs
    requires worlds[i].db.jobs[id].state == FailedRetryable || worlds[i].db.jobs[id].state == Queued
    requires forall k :: i <= k < j ==> !(steps[k].step.ClaimStep? && steps[k].step.selected == Some(id) && steps[k].step.lease > 0)
    ensures id in worlds[j].db.jobs && worlds[j].db.jobs[id] == worlds[i].db.jobs[id]
    decreases j
  {
    hide Apply, Enabled;
    if i < j {
      IdleStays(worlds, steps, i, j - 1, id);
      IdleStep(worlds[j - 1], steps[j - 1].step, steps[j - 1].now, id);
    }
  }

  lemma IdleStep(w: World, s: Step, now: Time, id: Id)
    requires Enabled(w, s, now) && id in w.db.jobs && w.db.jobs[id].state in {FailedRetryable, Queued, WaitingLogin}
    requires !(s.ClaimStep? && s.selected == Some(id) && s.lease > 0)
    requires s.ResumeStep? ==> !Resumable(w.db.jobs[id], s.owner, s.source)
    ensures var u := Apply(w, s, now).db; id in u.jobs && u.jobs[id] == w.db.jobs[id]
  {
    if !Touches(w.db, s, id) {
      hide Apply, Enabled;
      UntouchedStays(w, s, now, id);
    }
  }

  /**
   A concluded retryable failure of an attempt before the fifth makes the job wait a second, doubled for every
   attempt before it: until somebody claims it, it can be claimed exactly from then on.
   */
  lemma RetryableIsClaimableAgain(worlds: seq<World>, steps: seq<TimedStep>, i: nat, j: nat, id: Id, o: Outcome, x: Time)
    requires IsRun(worlds, steps) && ConcludesAt(worlds, steps, i, id, o) && i < j < |worlds|
    requires o.Failure? && o.retryable && id in worlds[i].db.jobs && worlds[i].db.jobs[id].attempts < 5
    requires forall k :: i < k < j ==> !(steps[k].step.ClaimStep? && steps[k].step.selected == Some(id) && steps[k].step.lease > 0)
    ensures worlds[i].db.jobs[id].attempts >= 1
    ensures MayBeClaimed(worlds[j].db, id, x) <==> steps[i].now + 1000 * Pow2(worlds[i].db.jobs[id].attempts - 1) <= x
  {
    assert i < |steps|;
    hide IsRun, Inv, ConcludesAt, Evolves, Pow2, MayBeClaimed, JobEvolves;
    AfterConclusion(worlds, steps, i, i + 1, id, o);
    RetryableTells(worlds[i].db.jobs[id], worlds[i + 1].db.jobs[id], o, steps[i].now);
    hide JobTells;
    IdleStays(worlds, steps, i + 1, j, id);
    ClaimableFrom(worlds[j].db, id, steps[i].now + 1000 * Pow2(worlds[i].db.jobs[id].attempts - 1), x);
  }

  lemma RetryableTells(before: Job, after: Job, o: Outcome, now: Time)
    requires JobTells(before, after, o, now) && o.Failure? && o.retryable && before.attempts < 5
    ensures before.attempts >= 1 && after.state == FailedRetryable
    ensures after.nextAttemptAt == Some(now + 1000 * Pow2(before.attempts - 1))
  {
  }

  lemma ClaimableFrom(db: Db, id: Id, at: Time, x: Time)
    requires id in db.jobs && db.jobs[id].state == FailedRetryable && db.jobs[id].nextAttemptAt == Some(at)
    ensures MayBeClaimed(db, id, x) <==> at <= x
  {
  }

  /** A concluded challenge makes the job wait: until its source is resumed it cannot be claimed. */
  lemma {:induction false} ChallengeWaits(worlds: seq<World>, steps: seq<TimedStep>, i: nat, j: nat, id: Id, o: Outcome, x: Time)
    requires IsRun(worlds, steps) && ConcludesAt(worlds, steps, i, id, o) && i < j < |worlds| && o.Challenge? && id in worlds[i].db.jobs
    requires forall k :: i < k < j && steps[k].step.ResumeStep? ==>
               steps[k].step.owner != worlds[i].db.jobs[id].owner || steps[k].step.source != worlds[i].db.jobs[id].source
    ensures id in worlds[i + 1].db.jobs && id in worlds[j].db.jobs && worlds[j].db.jobs[id] == worlds[i + 1].db.jobs[id]
    ensures worlds[j].db.jobs[id].state == WaitingLogin && !MayBeClaimed(worlds[j].db, id, x)
    decreases j
  {
    hide Inv, ConcludesAt, Evolves, Apply, Enabled, JobEvolves;
    AfterConclusion(worlds, steps, i, i + 1, id, o);
    if j > i + 1 {
      ChallengeWaits(worlds, steps, i, j - 1, id, o, steps[j - 1].now);
      var (w, s, now) := (worlds[j - 1], steps[j - 1].step, steps[j - 1].now);
      WaitingIsNotSelected(w, s, now, id);
      IdleStep(w, s, now, id);
    }
  }

  lemma WaitingIsNotSelected(w: World, s: Step, now: Time, id: Id)
    requires Enabled(w, s, now) && id in w.db.jobs && w.db.jobs[id].state == WaitingLogin
    ensures !(s.ClaimStep? && s.selected == Some(id))
  {
  }

  /** Resuming a source makes exactly the owner's waiting jobs of it claimable, at once, and counts them. */
  lemma ResumeMakesClaimable(db: Db, owner: Text, source: Source, now: Time)
    ensures var (u, n) := ResumeSource(db, owner, source, now);
            && n == |set id | id in db.jobs && db.jobs[id].state == WaitingLogin && db.jobs[id].owner == owner && db.jobs[id].source == source|
            && forall id :: id in db.jobs ==>
                 && id in u.jobs
                 && if db.jobs[id].state == WaitingLogin && db.jobs[id].owner == owner && db.jobs[id].source == source
                    then u.jobs[id].state == Queued && forall x :: MayBeClaimed(u, id, x)
                    else u.jobs[id] == db.jobs[id]
  {
    assert (set id | id in db.jobs && Resumable(db.jobs[id], owner, source))
        == (set id | id in db.jobs && db.jobs[id].state == WaitingLogin && db.jobs[id].owner == owner && db.jobs[id].source == source);
  }

  // ---------------------------------------------------------------- claims and leases

  /** The job is the worker's until `end`, exclusively: then its attempts decide whether it can be claimed again. */
  ghost predicate HeldUntil(db: Db, id: Id, worker: Id, end: Time) {
    && id in db.jobs
    && (forall w, x :: GoodFor(db, id, w, x) <==> w == worker && x < end)
    && (forall x :: MayBeClaimed(db, id, x) <==> end <= x && db.jobs[id].attempts < 5)
  }

  lemma HeldWhen(db: Db, id: Id, worker: Id, end: Time)
    requires id in db.jobs && db.jobs[id].state == Running && db.jobs[id].worker == Some(worker) && db.jobs[id].leaseExpiresAt == Some(end)
    ensures HeldUntil(db, id, worker, end)
  {
    var j := db.jobs[id];
    forall w, x ensures GoodFor(db, id, w, x) <==> w == worker && x < end {
      assert Holds(db, ClaimOf(id, j, w), x) <==> w == worker && x < end;
    }
  }

  /**
   A granted claim counts one attempt and tells the job: its batch, owner, task, query and source, and the
   checkpoint it has; the job is then the worker's exactly until the end of the lease.
   */
  lemma ClaimIsHeld(w: World, id: Id, worker: Id, lease: int, now: Time)
    requires Inv(w) && Enabled(w, ClaimStep(Some(id), worker, lease), now) && lease > 0
    ensures id in w.db.jobs
    ensures var (u, r) := ClaimNext(w.db, Some(id), worker, lease, now);
            && r.Ok? && r.value.Some? && id in u.jobs
            && HeldUntil(u, id, worker, now + lease) && u.jobs[id].attempts == w.db.jobs[id].attempts + 1
            && var (claim, job) := (r.value.value, w.db.jobs[id]);
               && claim.job == id && claim.worker == worker && claim.attempt == job.attempts + 1 && claim.batch == job.batch
               && claim.owner == job.owner && claim.task == job.task && claim.query == job.query && claim.source == job.source
               && claim.checkpoint == job.checkpoint
  {
    var u := ClaimNext(w.db, Some(id), worker, lease, now).0;
    HeldWhen(u, id, worker, now + lease);
    hide HeldUntil;
  }

  /** An exhausted job whose lease is over is ended by the next claiming run, whatever that selects. */
  lemma ExhaustedIsEnded(w: World, selected: Option<Id>, worker: Id, lease: int, now: Time, id: Id)
    requires Enabled(w, ClaimStep(selected, worker, lease), now) && lease > 0 && id in w.db.jobs
    ensures var u := ClaimNext(w.db, selected, worker, lease, now).0;
            && id in u.jobs
            && (w.db.jobs[id].state == Running && LeaseOver(w.db.jobs[id], now) && w.db.jobs[id].attempts >= 5 ==>
                  u.jobs[id].state == FailedFinal && u.jobs[id].outcome == Exhausted)
  {
  }

  /** A renewal answers whether the claim is good; then, and only then, the job is held until the end of the new lease. */
  lemma RenewedIff(db: Db, claim: Claim, lease: int, now: Time)
    ensures var (u, r) := RenewLease(db, claim, lease, now);
            && (r == Err(LeaseInvalid) <==> lease <= 0)
            && (lease > 0 ==> (r == Ok(true) <==> Holds(db, claim, now)) && (r == Ok(false) <==> !Holds(db, claim, now)))
            && (r == Ok(true) ==> HeldUntil(u, claim.job, claim.worker, now + lease))
            && (r != Ok(true) ==> u == db)
            && forall id :: id in db.jobs && id != claim.job ==> id in u.jobs && u.jobs[id] == db.jobs[id]
  {
    var (u, r) := RenewLease(db, claim, lease, now);
    if r == Ok(true) {
      HeldWhen(u, claim.job, claim.worker, now + lease);
    }
    hide HeldUntil;
  }

  /** A checkpoint is saved exactly under a good claim, changes nothing else of the job, and is what the job has from then on. */
  lemma CheckpointIff(db: Db, claim: Claim, checkpoint: Text, now: Time)
    ensures var (u, saved) := SaveCheckpoint(db, claim, checkpoint, now);
            && (saved <==> Holds(db, claim, now))
            && (saved ==> claim.job in u.jobs && u.jobs[claim.job].checkpoint == Some(checkpoint)
                          && u.jobs[claim.job] == db.jobs[claim.job].(checkpoint := Some(checkpoint), updatedAt := now))
            && (!saved ==> u == db)
            && forall id :: id in db.jobs && id != claim.job ==> id in u.jobs && u.jobs[id] == db.jobs[id]
  {
  }

  /** When an outcome is taken: exactly under a good claim, unless the evidence is there already or its cost is refused. */
  lemma ConcludedIff(db: Db, claim: Claim, o: Outcome, now: Time)
    ensures var (u, r) := Complete(db, claim, o, now);
            var stored := o.Evidence? && ResultId(claim.job, o.key) in db.results;
            && (r == AlreadyDone <==> stored)
            && (r == LeaseLost <==> !stored && !Holds(db, claim, now))
            && (r == Refused <==> !stored && Holds(db, claim, now) && (o.Evidence? || o.NoEvidence?) && o.cost < 0)
            && (r != Done ==> u == db)
            && (r == Done && o.Evidence? ==>
                  && ResultId(claim.job, o.key) in u.results
                  && u.results[ResultId(claim.job, o.key)] == ResultRow(claim.batch, o.evidenceId, o.summary, o.cost))
            && (r == Done && !o.Evidence? ==> u.results == db.results)
            && (r == Done && claim.batch in db.batches ==>
                  u.batches == db.batches[claim.batch := db.batches[claim.batch].(updatedAt := now)])
  {
  }

  /** The step of another worker, or a resume, claim or outcome, while the holder's lease lasts, does not touch the job. */
  lemma {:induction false} ClaimLasts(worlds: seq<World>, steps: seq<TimedStep>, i: nat, j: nat, id: Id)
    requires IsRun(worlds, steps) && i < |steps| && i < j < |worlds| && steps[i].step.ClaimStep?
    requires steps[i].step.selected == Some(id) && steps[i].step.lease > 0
    requires forall k :: i < k < j ==>
               && steps[k].now < steps[i].now + steps[i].step.lease
               && !(steps[k].step.RenewStep? && steps[k].step.claim.job == id && steps[k].step.claim.worker == steps[i].step.worker)
               && !(steps[k].step.CheckpointStep? && steps[k].step.claim.job == id && steps[k].step.claim.worker == steps[i].step.worker)
               && !(steps[k].step.CompleteStep? && steps[k].step.claim.job == id && steps[k].step.claim.worker == steps[i].step.worker)
    ensures HeldUntil(worlds[j].db, id, steps[i].step.worker, steps[i].now + steps[i].step.lease)
    ensures id in worlds[i + 1].db.jobs && worlds[j].db.jobs[id] == worlds[i + 1].db.jobs[id]
    ensures worlds[j].db.jobs[id].state == Running && worlds[j].db.jobs[id].worker == Some(steps[i].step.worker)
    ensures worlds[j].db.jobs[id].leaseExpiresAt == Some(steps[i].now + steps[i].step.lease)
    decreases j
  {
    var (worker, end) := (steps[i].step.worker, steps[i].now + steps[i].step.lease);
    if j == i + 1 {
      assert Enabled(worlds[i], steps[i].step, steps[i].now) && worlds[j] == Apply(worlds[i], steps[i].step, steps[i].now);
      ClaimCases(worlds[i], Some(id), worker, steps[i].step.lease, steps[i].now);
    } else {
      hide Apply, Enabled, HeldUntil;
      ClaimLasts(worlds, steps, i, j - 1, id);
      RunningStep(worlds[j - 1], steps[j - 1].step, steps[j - 1].now, id, worker, end);
    }
    hide Apply, Enabled;
    HeldWhen(worlds[j].db, id, worker, end);
  }

  lemma RunningStep(w: World, s: Step, now: Time, id: Id, worker: Id, end: Time)
    requires Enabled(w, s, now) && id in w.db.jobs && now < end
    requires w.db.jobs[id].state == Running && w.db.jobs[id].worker == Some(worker) && w.db.jobs[id].leaseExpiresAt == Some(end)
    requires !(s.RenewStep? && s.claim.job == id && s.claim.worker == worker)
    requires !(s.CheckpointStep? && s.claim.job == id && s.claim.worker == worker)
    requires !(s.CompleteStep? && s.claim.job == id && s.claim.worker == worker)
    ensures var u := Apply(w, s, now).db; id in u.jobs && u.jobs[id] == w.db.jobs[id]
  {
    if !Touches(w.db, s, id) {
      hide Apply, Enabled;
      UntouchedStays(w, s, now, id);
    }
  }

  // ---------------------------------------------------------------- batches

  /** Which state a batch is read in, for any jobs, spelled out for each state. */
  lemma StateOfIff(jobs: seq<Job>)
    ensures var waiting, running := exists i :: 0 <= i < |jobs| && jobs[i].state == WaitingLogin, exists i :: 0 <= i < |jobs| && jobs[i].state == Running;
            var ended := forall i :: 0 <= i < |jobs| ==> jobs[i].state in {Completed, NoResult, FailedFinal};
            && (StateOf(jobs) == BatchWaiting <==> waiting)
            && (StateOf(jobs) == BatchFailed <==> ended && exists i :: 0 <= i < |jobs| && jobs[i].state == FailedFinal)
            && (StateOf(jobs) == BatchCompleted <==> forall i :: 0 <= i < |jobs| ==> jobs[i].state in {Completed, NoResult})
            && (StateOf(jobs) == BatchRunning <==> !waiting && !ended && running)
            && (StateOf(jobs) == BatchQueued <==> !waiting && !ended && !running)
  {
  }

  /** A new batch has one job for each source, each queued, claimable at once, with the words of the command. */
  lemma CreatedJobs(db: Db, c: CreateCommand, normalized: seq<Source>, ids: seq<Id>, now: Time, k: nat)
    requires ExistingFor(db, c, None) && multiset(normalized) == multiset(c.sources) && |ids| == |normalized|
    requires Create(db, c, normalized, None, ids, now).1.Ok? && k < |ids|
    ensures var u := Create(db, c, normalized, None, ids, now).0;
            && c.batch in u.batches && c.batch !in db.batches
            && ids[k] in u.jobs && ids[k] !in db.jobs
            && u.jobs[ids[k]].batch == c.batch && u.jobs[ids[k]].source == normalized[k] && u.jobs[ids[k]].owner == c.owner
            && u.jobs[ids[k]].task == c.task && u.jobs[ids[k]].query == Trim(c.query) && u.jobs[ids[k]].attempts == 0
            && forall x :: MayBeClaimed(u, ids[k], x)
  {
    hide Invalid, ExistingFor, AddJobs;
    AddedAt(db.jobs, c, normalized, ids, now, k);
  }

  lemma {:induction false} AddedAt(jobs: map<Id, Job>, c: CreateCommand, sources: seq<Source>, ids: seq<Id>, now: Time, k: nat)
    requires |ids| == |sources| && Fresh(jobs, ids) && k < |ids|
    ensures var added := AddJobs(jobs, c, sources, ids, now); ids[k] in added && added[ids[k]] == NewJob(c, sources[k], now)
  {
    hide NewJob;
    var n := |sources| - 1;
    if k < n {
      AddedAt(jobs, c, sources[..n], ids[..n], now, k);
    }
  }

  /** Creating again under a key of the owner, at any time, changes nothing: the same content finds the same batch, any other is a conflict. */
  lemma CreationIsIdempotent(worlds: seq<World>, steps: seq<TimedStep>, i: nat, j: nat, again: CreateCommand, normalized: seq<Source>,
                             existing: Option<Id>, ids: seq<Id>, now: Time)
    requires IsRun(worlds, steps) && i < |steps| && i < j < |worlds| && steps[i].step.CreateStep?
    requires steps[i].step.existing.None?
    requires Create(worlds[i].db, steps[i].step.command, steps[i].step.normalized, None, steps[i].step.ids, steps[i].now).1.Ok?
    requires again.owner == steps[i].step.command.owner && again.key == steps[i].step.command.key && !Invalid(again)
    requires Enabled(worlds[j], CreateStep(again, normalized, existing, ids), now)
    ensures var c := steps[i].step.command;
            Create(worlds[j].db, again, normalized, existing, ids, now)
            == (worlds[j].db, if again.task == c.task && Trim(again.query) == Trim(c.query) && normalized == steps[i].step.normalized
                              then Ok(c.batch) else Err(IdempotencyConflict))
  {
    var c := steps[i].step.command;
    assert worlds[i + 1].db == Create(worlds[i].db, c, steps[i].step.normalized, None, steps[i].step.ids, steps[i].now).0;
    BatchStays(worlds, steps, i + 1, j, c.batch);
    OneBatchPerKey(worlds, steps, j);
    hide Invalid, IsRun, AddJobs;
  }

  ghost predicate SameBatch(a: Batch, b: Batch) {
    a.owner == b.owner && a.key == b.key && a.fingerprint == b.fingerprint && a.task == b.task && a.query == b.query
  }

  lemma StepKeepsBatch(w: World, s: Step, now: Time, b: Id)
    requires Enabled(w, s, now) && b in w.db.batches
    ensures var u := Apply(w, s, now).db; b in u.batches && SameBatch(w.db.batches[b], u.batches[b])
  {
    hide Invalid, ExistingFor, AddJobs, Concluded, SweptJob, Eligible;
  }

  lemma {:induction false} BatchStays(worlds: seq<World>, steps: seq<TimedStep>, i: nat, j: nat, b: Id)
    requires IsRun(worlds, steps) && i <= j < |worlds| && b in worlds[i].db.batches
    ensures b in worlds[j].db.batches && SameBatch(worlds[i].db.batches[b], worlds[j].db.batches[b])
    decreases j
  {
    hide Apply, Enabled;
    if i < j {
      BatchStays(worlds, steps, i, j - 1, b);
      StepKeepsBatch(worlds[j - 1], steps[j - 1].step, steps[j - 1].now, b);
    }
  }

  ghost predicate KeysDiffer(db: Db) {
    forall a, b | a in db.batches && b in db.batches && a != b ::
      db.batches[a].owner != db.batches[b].owner || db.batches[a].key != db.batches[b].key
  }

  lemma StepKeepsKeys(w: World, s: Step, now: Time)
    requires Enabled(w, s, now) && KeysDiffer(w.db)
    ensures KeysDiffer(Apply(w, s, now).db)
  {
    hide Invalid, AddJobs, Concluded, SweptJob, Eligible;
  }

  lemma {:induction false} OneBatchPerKey(worlds: seq<World>, steps: seq<TimedStep>, i: nat)
    requires IsRun(worlds, steps) && i < |worlds|
    ensures KeysDiffer(worlds[i].db)
  {
    hide Apply, Enabled;
    if i > 0 {
      OneBatchPerKey(worlds, steps, i - 1);
      hide KeysDiffer;
      StepKeepsKeys(worlds[i - 1], steps[i - 1].step, steps[i - 1].now);
    }
  }
}
