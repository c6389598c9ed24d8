/** The source-research queue: what each of its operations does to batches, jobs and results. */
module SourceResearch {
  import opened Wrappers
  import opened Text

  type Id = string
  type Time = int

  datatype JobState = Queued | Running | WaitingLogin | Completed | NoResult | FailedRetryable | FailedFinal

  datatype Outcome =
    | Evidence(key: Id, evidenceId: Id, summary: Text, cost: int)
    | NoEvidence(summary: Text, cost: int)
    | Challenge(session: Id)
    | Failure(retryable: bool, summary: Text)

  datatype StoredOutcome = Nothing | Exhausted | Reported(outcome: Outcome)

  datatype Source = Source(source: Text, account: Text)

  datatype Job = Job(
    batch: Id, owner: Text, task: Text, query: Text, source: Source, state: JobState,
    checkpoint: Option<Text>, outcome: StoredOutcome, worker: Option<Id>, leaseExpiresAt: Option<Time>,
    attempts: nat, nextAttemptAt: Option<Time>, cost: nat, createdAt: Time, updatedAt: Time)

  datatype Batch = Batch(owner: Text, task: Text, key: Text, fingerprint: Fingerprint, query: Text, createdAt: Time, updatedAt: Time)

  /** What the request fingerprint is taken over; the digest is taken to be injective. */
  datatype Fingerprint = Fingerprint(task: Text, query: Text, sources: seq<Source>)

  datatype ResultId = ResultId(job: Id, key: Id)

  datatype ResultRow = ResultRow(batch: Id, evidenceId: Id, summary: Text, cost: nat)

  datatype Db = Db(batches: map<Id, Batch>, jobs: map<Id, Job>, results: map<ResultId, ResultRow>)

  const EMPTY := Db(map[], map[], map[])

  datatype Error = BatchInvalid | IdempotencyConflict | LeaseInvalid | WriteFailed

  const MAX_ATTEMPTS := 5

  function Terminal(s: JobState): bool {
    s == Completed || s == NoResult || s == FailedFinal
  }

  // ---------------------------------------------------------------- batches

  datatype CreateCommand = CreateCommand(batch: Id, owner: Text, task: Text, key: Text, query: Text, sources: seq<Source>)

  predicate Invalid(c: CreateCommand) {
    || |c.sources| == 0 || |c.sources| > 10
    || Trim(c.query) == [] || |c.query| > 4000 || |c.task| > 200 || |c.key| > 200
    || exists i :: 0 <= i < |c.sources| && (|c.sources[i].source| > 100 || |c.sources[i].account| > 200)
  }

  predicate Distinct<T(==)>(s: seq<T>) {
    forall i, j :: 0 <= i < j < |s| ==> s[i] != s[j]
  }

  function NewJob(c: CreateCommand, source: Source, now: Time): Job {
    Job(c.batch, c.owner, c.task, Trim(c.query), source, Queued, None, Nothing, None, None, 0, Some(now), 0, now, now)
  }

  /** One job for each source, under fresh ids. */
  function AddJobs(jobs: map<Id, Job>, c: CreateCommand, sources: seq<Source>, ids: seq<Id>, now: Time): map<Id, Job>
    requires |ids| == |sources|
  {
    if sources == [] then jobs
    else AddJobs(jobs, c, sources[..|sources| - 1], ids[..|ids| - 1], now)[ids[|ids| - 1] := NewJob(c, sources[|sources| - 1], now)]
  }

  predicate Fresh(jobs: map<Id, Job>, ids: seq<Id>) {
    Distinct(ids) && forall i :: 0 <= i < |ids| ==> ids[i] !in jobs
  }

  /** `existing` is the batch stored under the owner's idempotency key, when there is one. */
  predicate ExistingFor(db: Db, c: CreateCommand, existing: Option<Id>) {
    match existing
    case None => forall b :: b in db.batches ==> db.batches[b].owner != c.owner || db.batches[b].key != c.key
    case Some(b) => b in db.batches && db.batches[b].owner == c.owner && db.batches[b].key == c.key
  }

  /** `normalized` are the sources in the order the program sorts them; `ids` the job ids it draws. */
  function Create(db: Db, c: CreateCommand, normalized: seq<Source>, existing: Option<Id>, ids: seq<Id>, now: Time)
    : (Db, Result<Id, Error>)
    requires ExistingFor(db, c, existing) && multiset(normalized) == multiset(c.sources) && |ids| == |normalized|
  {
    var fingerprint := Fingerprint(c.task, Trim(c.query), normalized);
    if Invalid(c) then (db, Err(BatchInvalid))
    else if existing.Some? then
      (db, if db.batches[existing.value].fingerprint == fingerprint then Ok(existing.value) else Err(IdempotencyConflict))
    else if c.batch in db.batches || !Distinct(normalized) || !Fresh(db.jobs, ids) then (db, Err(WriteFailed))
    else
      (db.(batches := db.batches[c.batch := Batch(c.owner, c.task, c.key, fingerprint, Trim(c.query), now, now)],
           jobs := AddJobs(db.jobs, c, normalized, ids, now)),
       Ok(c.batch))
  }

  // ---------------------------------------------------------------- login

  predicate Resumable(j: Job, owner: Text, source: Source) {
    j.owner == owner && j.source == source && j.state == WaitingLogin
  }

  function ResumedJob(j: Job, owner: Text, source: Source, now: Time): Job {
    if Resumable(j, owner, source) then j.(state := Queued, worker := None, leaseExpiresAt := None, updatedAt := now) else j
  }

  function ResumeSource(db: Db, owner: Text, source: Source, now: Time): (Db, nat) {
    (db.(jobs := map j | j in db.jobs :: ResumedJob(db.jobs[j], owner, source, now)),
     |set j | j in db.jobs && Resumable(db.jobs[j], owner, source)|)
  }

  // ---------------------------------------------------------------- claims

  predicate LeaseOver(j: Job, now: Time) {
    j.leaseExpiresAt.Some? && j.leaseExpiresAt.value <= now
  }

  /** A running job whose lease is over and whose attempts are used up fails for good. */
  function SweptJob(j: Job, now: Time): Job {
    if j.state == Running && LeaseOver(j, now) && j.attempts >= MAX_ATTEMPTS
    then j.(state := FailedFinal, worker := None, leaseExpiresAt := None, nextAttemptAt := None, outcome := Exhausted, updatedAt := now)
    else j
  }

  function Sweep(db: Db, now: Time): Db {
    db.(jobs := map j | j in db.jobs :: SweptJob(db.jobs[j], now))
  }

  predicate Eligible(j: Job, now: Time) {
    || j.state == Queued
    || (j.state == FailedRetryable && j.nextAttemptAt.Some? && j.nextAttemptAt.value <= now)
    || (j.state == Running && LeaseOver(j, now) && j.attempts < MAX_ATTEMPTS)
  }

  datatype Claim = Claim(
    job: Id, batch: Id, owner: Text, task: Text, query: Text, source: Source, checkpoint: Option<Text>, worker: Id, attempt: nat)

  /** The claim that a worker is given of a job. */
  function ClaimOf(id: Id, j: Job, worker: Id): Claim {
    Claim(id, j.batch, j.owner, j.task, j.query, j.source, j.checkpoint, worker, j.attempts + 1)
  }

  function ClaimedJob(j: Job, worker: Id, lease: int, now: Time): Job {
    j.(state := Running, worker := Some(worker), leaseExpiresAt := Some(now + lease), attempts := j.attempts + 1, updatedAt := now)
  }

  /** `selected` is the row the claiming query returned after the sweep, when it returned one. */
  function ClaimNext(db: Db, selected: Option<Id>, worker: Id, lease: int, now: Time): (Db, Result<Option<Claim>, Error>)
    requires selected.Some? ==> selected.value in db.jobs && Eligible(SweptJob(db.jobs[selected.value], now), now)
  {
    if lease <= 0 then (db, Err(LeaseInvalid))
    else
      var swept := Sweep(db, now);
      match selected
      case None => (swept, Ok(None))
      case Some(id) =>
        var job := swept.jobs[id];
        (swept.(jobs := swept.jobs[id := ClaimedJob(job, worker, lease, now)]),
         Ok(Some(ClaimOf(id, job, worker))))
  }

  /** The guard of every update made under a claim. */
  predicate Holds(db: Db, claim: Claim, now: Time) {
    && claim.job in db.jobs
    && var j := db.jobs[claim.job];
       j.worker == Some(claim.worker) && j.state == Running && j.leaseExpiresAt.Some? && j.leaseExpiresAt.value > now
  }

  function RenewLease(db: Db, claim: Claim, lease: int, now: Time): (Db, Result<bool, Error>) {
    if lease <= 0 then (db, Err(LeaseInvalid))
    else if !Holds(db, claim, now) then (db, Ok(false))
    else (db.(jobs := db.jobs[claim.job := db.jobs[claim.job].(leaseExpiresAt := Some(now + lease), updatedAt := now)]), Ok(true))
  }

  function SaveCheckpoint(db: Db, claim: Claim, checkpoint: Text, now: Time): (Db, bool) {
    if !Holds(db, claim, now) then (db, false)
    else (db.(jobs := db.jobs[claim.job := db.jobs[claim.job].(checkpoint := Some(checkpoint), updatedAt := now)]), true)
  }

  // ---------------------------------------------------------------- completion

  datatype Completion = Done | AlreadyDone | LeaseLost | Refused

  function Pow2(n: nat): nat {
    if n == 0 then 1 else 2 * Pow2(n - 1)
  }

  /** `Math.min(300000, 1000 * 2 ** (attempts - 1))`, in milliseconds. */
  function Backoff(attempts: nat): nat {
    if attempts == 0 then 500
    else if 1000 * Pow2(attempts - 1) < 300_000 then 1000 * Pow2(attempts - 1) else 300_000
  }

  function FinishedJob(j: Job, state: JobState, now: Time, outcome: StoredOutcome, cost: nat, nextAttemptAt: Option<Time>): Job {
    j.(state := state, outcome := outcome, cost := cost, worker := None, leaseExpiresAt := None,
       nextAttemptAt := nextAttemptAt, updatedAt := now)
  }

  function OutcomeCost(o: Outcome): int {
    if o.Evidence? || o.NoEvidence? then o.cost else 0
  }

  /** The job after its outcome. */
  function Concluded(j: Job, o: Outcome, now: Time): Job
    requires OutcomeCost(o) >= 0
  {
    match o
    case Evidence(_, _, _, cost) => FinishedJob(j, Completed, now, Nothing, cost, None)
    case NoEvidence(_, cost) => FinishedJob(j, NoResult, now, Reported(o), cost, None)
    case Challenge(_) => FinishedJob(j, WaitingLogin, now, Reported(o), 0, None)
    case Failure(true, _) =>
      if j.attempts >= MAX_ATTEMPTS then FinishedJob(j, FailedFinal, now, Reported(o), 0, None)
      else FinishedJob(j, FailedRetryable, now, Reported(o), 0, Some(now + Backoff(j.attempts)))
    case Failure(false, _) => FinishedJob(j, FailedFinal, now, Reported(o), 0, None)
  }

  function Complete(db: Db, claim: Claim, o: Outcome, now: Time): (Db, Completion) {
    if o.Evidence? && ResultId(claim.job, o.key) in db.results then (db, AlreadyDone)
    else if !Holds(db, claim, now) then (db, LeaseLost)
    else if OutcomeCost(o) < 0 then (db, Refused)
    else
      var jobs := db.jobs[claim.job := Concluded(db.jobs[claim.job], o, now)];
      var batches := if claim.batch in db.batches
                     then db.batches[claim.batch := db.batches[claim.batch].(updatedAt := now)] else db.batches;
      var results := if o.Evidence?
                     then db.results[ResultId(claim.job, o.key) := ResultRow(claim.batch, o.evidenceId, o.summary, o.cost)]
                     else db.results;
      (Db(batches, jobs, results), Done)
  }

  // ---------------------------------------------------------------- reading a batch

  datatype BatchState = BatchQueued | BatchRunning | BatchWaiting | BatchCompleted | BatchFailed

  function StateOf(jobs: seq<Job>): BatchState {
    if exists i :: 0 <= i < |jobs| && jobs[i].state == WaitingLogin then BatchWaiting
    else if (forall i :: 0 <= i < |jobs| ==> Terminal(jobs[i].state))
            && exists i :: 0 <= i < |jobs| && jobs[i].state == FailedFinal then BatchFailed
    else if forall i :: 0 <= i < |jobs| ==> jobs[i].state == Completed || jobs[i].state == NoResult then BatchCompleted
    else if exists i :: 0 <= i < |jobs| && jobs[i].state == Running then BatchRunning
    else BatchQueued
  }

  function CostOf(jobs: seq<Job>): nat {
    if jobs == [] then 0 else CostOf(jobs[..|jobs| - 1]) + jobs[|jobs| - 1].cost
  }

  /** `rows` are the batch's jobs in some order: each of them once. */
  ghost predicate Lists(db: Db, batch: Id, rows: seq<Id>) {
    && Distinct(rows)
    && (forall i :: 0 <= i < |rows| ==> rows[i] in db.jobs && db.jobs[rows[i]].batch == batch)
    && (forall j :: j in db.jobs && db.jobs[j].batch == batch ==> j in rows)
  }

  function Rows(db: Db, rows: seq<Id>): seq<Job>
    requires forall i :: 0 <= i < |rows| ==> rows[i] in db.jobs
  {
    seq(|rows|, i requires 0 <= i < |rows| => db.jobs[rows[i]])
  }
}
