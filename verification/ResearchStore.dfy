/** The source-research queue as the program runs it: rows updated statement by statement. */
module ResearchStore {
  import opened Wrappers
  import opened Text
  import opened SourceResearch

  class Store {
    var batches: map<Id, Batch>
    var jobs: map<Id, Job>
    var results: map<ResultId, ResultRow>

    function Contents(): Db
      reads this
    {
      Db(batches, jobs, results)
    }

    constructor ()
      ensures Contents() == EMPTY
    {
      batches, jobs, results := map[], map[], map[];
    }

    method CreateBatch(c: CreateCommand, normalized: seq<Source>, existing: Option<Id>, ids: seq<Id>, now: Time)
      returns (r: Result<Id, Error>)
      requires ExistingFor(Contents(), c, existing) && multiset(normalized) == multiset(c.sources) && |ids| == |normalized|
      modifies this
      ensures (Contents(), r) == Create(old(Contents()), c, normalized, existing, ids, now)
    {
      if Invalid(c) {
        return Err(BatchInvalid);
      }
      var fingerprint := Fingerprint(c.task, Trim(c.query), normalized);
      if existing.Some? {
        if batches[existing.value].fingerprint != fingerprint {
          return Err(IdempotencyConflict);
        }
        return Ok(existing.value);
      }
      if c.batch in batches {
        return Err(WriteFailed);
      }
      var begun := (batches, jobs);
      batches := batches[c.batch := Batch(c.owner, c.task, c.key, fingerprint, Trim(c.query), now, now)];
      var inserted := InsertJobs(c, normalized, ids, now);
      if !inserted {
        batches, jobs := begun.0, begun.1;
        return Err(WriteFailed);
      }
      return Ok(c.batch);
    }

    /** Inserts the jobs one by one; false when a row breaks a key. */
    method InsertJobs(c: CreateCommand, normalized: seq<Source>, ids: seq<Id>, now: Time) returns (inserted: bool)
      requires |ids| == |normalized|
      modifies this`jobs
      ensures inserted <==> Distinct(normalized) && Fresh(old(jobs), ids)
      ensures inserted ==> jobs == AddJobs(old(jobs), c, normalized, ids, now)
    {
      hide NewJob, Distinct, Fresh;
      NoneYet(old(jobs));
      for i := 0 to |normalized|
        invariant jobs == AddJobs(old(jobs), c, normalized[..i], ids[..i], now)
        invariant forall id :: id in jobs <==> id in old(jobs) || id in ids[..i]
        invariant Distinct(normalized[..i]) && Fresh(old(jobs), ids[..i])
      {
        OneMore(old(jobs), normalized, ids, i);
        if ids[i] in jobs || normalized[i] in normalized[..i] {
          return false;
        }
        assert normalized[..i + 1][..i] == normalized[..i] && ids[..i + 1][..i] == ids[..i];
        assert ids[..i + 1] == ids[..i] + [ids[i]];
        jobs := jobs[ids[i] := NewJob(c, normalized[i], now)];
      }
      assert normalized[..|normalized|] == normalized && ids[..|ids|] == ids;
      return true;
    }

    lemma NoneYet(before: map<Id, Job>)
      ensures Distinct<Source>([]) && Fresh(before, [])
    {
    }

    lemma OneMore(before: map<Id, Job>, normalized: seq<Source>, ids: seq<Id>, i: nat)
      requires |ids| == |normalized| && i < |ids| && Distinct(normalized[..i]) && Fresh(before, ids[..i])
      ensures if ids[i] in before || ids[i] in ids[..i] || normalized[i] in normalized[..i]
              then !Distinct(normalized) || !Fresh(before, ids)
              else Distinct(normalized[..i + 1]) && Fresh(before, ids[..i + 1])
    {
      if ids[i] in ids[..i] {
        var k :| 0 <= k < i && ids[..i][k] == ids[i];
        assert ids[k] == ids[i];
      } else if normalized[i] in normalized[..i] {
        var k :| 0 <= k < i && normalized[..i][k] == normalized[i];
        assert normalized[k] == normalized[i];
      } else {
        assert normalized[..i + 1] == normalized[..i] + [normalized[i]];
        assert ids[..i + 1] == ids[..i] + [ids[i]];
      }
    }

    method Resume(owner: Text, source: Source, now: Time) returns (resumed: nat)
      modifies this
      ensures (Contents(), resumed) == ResumeSource(old(Contents()), owner, source, now)
    {
      resumed := |set j | j in jobs && Resumable(jobs[j], owner, source)|;
      jobs := map j | j in jobs :: ResumedJob(jobs[j], owner, source, now);
    }

    method Claim(selected: Option<Id>, worker: Id, lease: int, now: Time) returns (r: Result<Option<Claim>, Error>)
      requires selected.Some? ==> selected.value in jobs && Eligible(SweptJob(jobs[selected.value], now), now)
      modifies this
      ensures (Contents(), r) == ClaimNext(old(Contents()), selected, worker, lease, now)
    {
      if lease <= 0 {
        return Err(LeaseInvalid);
      }
      jobs := map j | j in jobs :: SweptJob(jobs[j], now);
      if selected.None? {
        return Ok(None);
      }
      var job := jobs[selected.value];
      jobs := jobs[selected.value := ClaimedJob(job, worker, lease, now)];
      return Ok(Some(SourceResearch.Claim(selected.value, job.batch, job.owner, job.task, job.query, job.source, job.checkpoint,
                                          worker, job.attempts + 1)));
    }

    method Renew(claim: Claim, lease: int, now: Time) returns (r: Result<bool, Error>)
      modifies this
      ensures (Contents(), r) == RenewLease(old(Contents()), claim, lease, now)
    {
      if lease <= 0 {
        return Err(LeaseInvalid);
      }
      if !Holds(Contents(), claim, now) {
        return Ok(false);
      }
      jobs := jobs[claim.job := jobs[claim.job].(leaseExpiresAt := Some(now + lease), updatedAt := now)];
      return Ok(true);
    }

    method Checkpoint(claim: Claim, checkpoint: Text, now: Time) returns (saved: bool)
      modifies this
      ensures (Contents(), saved) == SaveCheckpoint(old(Contents()), claim, checkpoint, now)
    {
      if !Holds(Contents(), claim, now) {
        return false;
      }
      jobs := jobs[claim.job := jobs[claim.job].(checkpoint := Some(checkpoint), updatedAt := now)];
      return true;
    }

    method FinishJob(job: Id, state: JobState, now: Time, outcome: StoredOutcome, cost: nat, nextAttemptAt: Option<Time>)
      requires job in jobs
      modifies this`jobs
      ensures jobs == old(jobs)[job := SourceResearch.FinishedJob(old(jobs)[job], state, now, outcome, cost, nextAttemptAt)]
    {
      jobs := jobs[job := jobs[job].(
        state := state, outcome := outcome, cost := cost, worker := None, leaseExpiresAt := None,
        nextAttemptAt := nextAttemptAt, updatedAt := now)];
    }

    method Finish(claim: Claim, o: Outcome, now: Time) returns (r: Completion)
      modifies this
      ensures (Contents(), r) == Complete(old(Contents()), claim, o, now)
    {
      if o.Evidence? && ResultId(claim.job, o.key) in results {
        return AlreadyDone;
      }
      if !Holds(Contents(), claim, now) {
        return LeaseLost;
      }
      if OutcomeCost(o) < 0 {
        return Refused;
      }
      match o {
        case Evidence(key, evidenceId, summary, cost) =>
          results := results[ResultId(claim.job, key) := ResultRow(claim.batch, evidenceId, summary, cost)];
          FinishJob(claim.job, Completed, now, Nothing, cost, None);
        case NoEvidence(_, cost) => FinishJob(claim.job, NoResult, now, Reported(o), cost, None);
        case Challenge(_) => FinishJob(claim.job, WaitingLogin, now, Reported(o), 0, None);
        case Failure(true, _) =>
          var attempts := jobs[claim.job].attempts;
          var exhausted := attempts >= MAX_ATTEMPTS;
          FinishJob(claim.job, if exhausted then FailedFinal else FailedRetryable, now, Reported(o), 0,
                    if exhausted then None else Some(now + Backoff(attempts)));
        case Failure(false, _) => FinishJob(claim.job, FailedFinal, now, Reported(o), 0, None);
      }
      if claim.batch in batches {
        batches := batches[claim.batch := batches[claim.batch].(updatedAt := now)];
      }
      return Done;
    }

    /** State and cost of a batch, from its rows. */
    method ReadBatch(batch: Id, owner: Text, rows: seq<Id>) returns (r: Option<(BatchState, nat)>)
      requires Lists(Contents(), batch, rows)
      ensures r == if batch in batches && batches[batch].owner == owner
                   then Some((StateOf(Rows(Contents(), rows)), CostOf(Rows(Contents(), rows)))) else None
    {
      if batch !in batches || batches[batch].owner != owner {
        return None;
      }
      var cost, listed := 0, Rows(Contents(), rows);
      for i := 0 to |listed|
        invariant cost == CostOf(listed[..i])
      {
        cost := cost + listed[i].cost;
        assert listed[..i + 1][..i] == listed[..i];
      }
      assert listed[..|listed|] == listed;
      return Some((StateOf(listed), cost));
    }
  }
}
