/** The bound on claims is reached: a job can be claimed five times and once more for every resume. */
module ResearchWitness {
  import opened Wrappers
  import opened Text
  import opened SourceResearch
  import opened ResearchTheorems

  ghost predicate Reachable(w: World) {
    exists worlds, steps :: IsRun(worlds, steps) && worlds[|steps|] == w
  }

  lemma StepIsReachable(w: World, s: Step, now: Time)
    requires Reachable(w) && Enabled(w, s, now)
    ensures Reachable(Apply(w, s, now))
  {
    hide Enabled, Apply;
    var worlds, steps :| IsRun(worlds, steps) && worlds[|steps|] == w;
    var (more, longer) := (worlds + [Apply(w, s, now)], steps + [At(s, now)]);
    forall i | 0 <= i < |longer|
      ensures Enabled(more[i], longer[i].step, longer[i].now) && more[i + 1] == Apply(more[i], longer[i].step, longer[i].now)
    {
      assert more[i] == worlds[i];
      assert i < |steps| ==> more[i + 1] == worlds[i + 1] && longer[i] == steps[i];
    }
    assert IsRun(more, longer) && more[|longer|] == Apply(w, s, now);
  }

  const SOURCE := Source([], [])
  const COMMAND := CreateCommand("b", [], [], [], [65], [SOURCE])

  /** The only job is the given one, claimed and resumed so many times. */
  ghost predicate OneJob(w: World, job: Job, claims: nat, resumes: nat) {
    && w.db.jobs == map["j" := job] && job.batch == "b" && job.owner == [] && job.source == SOURCE
    && Count(w.claims, "j") == claims == job.attempts && Count(w.resumes, "j") == resumes
  }

  /** It runs under its last claim, until `expires`. */
  ghost predicate RunsUntil(w: World, claims: nat, resumes: nat, expires: Time) {
    && "j" in w.db.jobs && OneJob(w, w.db.jobs["j"], claims, resumes)
    && w.db.jobs["j"].state == Running && w.db.jobs["j"].worker == Some("w") && w.db.jobs["j"].leaseExpiresAt == Some(expires)
    && (exists claim :: claim in w.issued && claim.job == "j" && claim.worker == "w")
  }

  lemma Created() returns (w: World)
    ensures Reachable(w) && "j" in w.db.jobs && OneJob(w, w.db.jobs["j"], 0, 0) && w.db.jobs["j"].state == Queued
  {
    var start := World(EMPTY, {}, map[], map[]);
    var none: seq<TimedStep> := [];
    assert IsRun([start], none) && [start][|none|] == start;
    var s := CreateStep(COMMAND, [SOURCE], None, ["j"]);
    assert !Invalid(COMMAND) && Distinct([SOURCE]) && Fresh(map[], ["j"]) by {
      assert TrimStart([65]) == [65] && TrimEnd([65]) == [65];
    }
    assert AddJobs(map[], COMMAND, [SOURCE], ["j"], 0) == map["j" := NewJob(COMMAND, SOURCE, 0)] by {
      assert AddJobs(map[], COMMAND, [SOURCE][..0], ["j"][..0], 0) == map[];
    }
    StepIsReachable(start, s, 0);
    w := Apply(start, s, 0);
  }

  /** A queued job, or one whose lease is over and whose attempts are not used up, is claimed. */
  lemma ClaimedAgain(w: World, claims: nat, resumes: nat, now: Time) returns (v: World)
    requires Reachable(w) && "j" in w.db.jobs && OneJob(w, w.db.jobs["j"], claims, resumes)
    requires w.db.jobs["j"].state == Queued || (RunsUntil(w, claims, resumes, now) && claims < MAX_ATTEMPTS)
    ensures Reachable(v) && RunsUntil(v, claims + 1, resumes, now + 1)
  {
    var s := ClaimStep(Some("j"), "w", 1);
    assert Eligible(SweptJob(w.db.jobs["j"], now), now);
    assert Sweep(w.db, now).jobs == w.db.jobs;
    hide Reachable;
    StepIsReachable(w, s, now);
    v := Apply(w, s, now);
  }

  /** A running job asks for a login, is resumed and claimed once more. */
  lemma ResumedAndClaimed(w: World, claims: nat, resumes: nat, expires: Time) returns (v: World)
    requires Reachable(w) && RunsUntil(w, claims, resumes, expires)
    ensures Reachable(v) && RunsUntil(v, claims + 1, resumes + 1, expires + 1)
  {
    hide Reachable, RunsUntil, OneJob;
    var waiting := AsksForLogin(w, claims, resumes, expires);
    var queued := Resumed(waiting, claims, resumes, expires);
    v := ClaimedAgain(queued, claims, resumes + 1, expires);
  }

  lemma AsksForLogin(w: World, claims: nat, resumes: nat, expires: Time) returns (v: World)
    requires Reachable(w) && RunsUntil(w, claims, resumes, expires)
    ensures Reachable(v) && "j" in v.db.jobs && OneJob(v, v.db.jobs["j"], claims, resumes) && v.db.jobs["j"].state == WaitingLogin
  {
    hide Reachable;
    var claim :| claim in w.issued && claim.job == "j" && claim.worker == "w";
    var waits := CompleteStep(claim, Challenge("login"));
    StepIsReachable(w, waits, expires - 1);
    v := Apply(w, waits, expires - 1);
  }

  lemma Resumed(w: World, claims: nat, resumes: nat, now: Time) returns (v: World)
    requires Reachable(w) && "j" in w.db.jobs && OneJob(w, w.db.jobs["j"], claims, resumes) && w.db.jobs["j"].state == WaitingLogin
    ensures Reachable(v) && "j" in v.db.jobs && OneJob(v, v.db.jobs["j"], claims, resumes + 1) && v.db.jobs["j"].state == Queued
  {
    hide Reachable;
    StepIsReachable(w, ResumeStep([], SOURCE), now);
    v := Apply(w, ResumeStep([], SOURCE), now);
  }

  lemma {:induction false} ClaimedTimes(n: nat) returns (w: World)
    requires 1 <= n <= MAX_ATTEMPTS
    ensures Reachable(w) && RunsUntil(w, n, 0, n)
  {
    if n == 1 {
      var created := Created();
      w := ClaimedAgain(created, 0, 0, 0);
    } else {
      var before := ClaimedTimes(n - 1);
      w := ClaimedAgain(before, n - 1, 0, n - 1);
    }
  }

  /** For every number of resumes there is a run in which a job is claimed five times more than it is resumed. */
  lemma {:induction false} ClaimBoundIsReached(resumes: nat) returns (w: World)
    ensures Reachable(w) && RunsUntil(w, MAX_ATTEMPTS + resumes, resumes, MAX_ATTEMPTS + resumes)
  {
    if resumes == 0 {
      w := ClaimedTimes(MAX_ATTEMPTS);
    } else {
      var before := ClaimBoundIsReached(resumes - 1);
      w := ResumedAndClaimed(before, MAX_ATTEMPTS + resumes - 1, resumes - 1, MAX_ATTEMPTS + resumes - 1);
    }
  }
}
