/** The outbox and the worker's acknowledgements: no operation that can be claimed is ever lost. */
module TaskOutbox {
  import opened Wrappers
  import opened TaskTypes
  import opened TaskTransactions
  import opened TaskInvariants
  import opened TaskSteps
  import opened TaskRuns
  import opened TaskTheorems

  // ---------------------------------------------------------------- due times

  /** In every state, each operation has exactly one outbox row. */
  lemma OneMessageEach(states: seq<Tables>, steps: seq<TimedStep>, i: nat, o: Id)
    requires IsRun(states, steps) && i < |states| && o in states[i].operations
    ensures exists m :: m in states[i].outbox && states[i].outbox[m].operation == o
              && forall n :: n in states[i].outbox && states[i].outbox[n].operation == o ==> n == m
  {
    hide IsRun, OperationsOk, RunsOk, RequestsOk, SubmissionsOk, Evolves;
    RunAdvances(states, steps, i, i);
    assert HasMessage(states[i], o);
    var m :| m in states[i].outbox && states[i].outbox[m].operation == o;
    assert forall n :: n in states[i].outbox && states[i].outbox[n].operation == o ==> n == m;
  }

  /** The step writes the row of message `m`: it adds the row, or attempts to publish it. */
  ghost predicate Writes(t: Tables, s: Step, m: Id) {
    m !in t.outbox || (s.PublishStep? && s.message == m)
  }

  /** When the row that the step writes is due again. */
  ghost function Due(s: TimedStep): Time {
    if s.step.PublishStep? then s.now + (if s.step.delivered then s.step.delays.republish else s.step.delays.retry) else s.now
  }

  lemma StepWritesMessage(t: Tables, s: TimedStep, m: Id)
    requires Enabled(t, s.step, s.now) && m in Apply(t, s.step, s.now).outbox
    ensures var u := Apply(t, s.step, s.now);
            if Writes(t, s.step, m) then u.outbox[m].nextAttemptAt == Due(s)
            else m in t.outbox && u.outbox[m] == t.outbox[m]
  {
    StepKeepsTheRest(t, s.step, s.now);
    hide ToTaskSnapshot, ExistingFor, Newest, Log;
    if !s.step.SubmitStep? && !s.step.PublishStep? {
      hide Apply, Enabled;
    }
  }

  lemma StepKeepsMessages(t: Tables, s: TimedStep, m: Id)
    requires Enabled(t, s.step, s.now) && m in t.outbox
    ensures m in Apply(t, s.step, s.now).outbox
  {
    StepKeepsTheRest(t, s.step, s.now);
    hide ToTaskSnapshot, ExistingFor, Newest, Log;
    if !s.step.SubmitStep? && !s.step.PublishStep? {
      hide Apply, Enabled;
    }
  }

  /** Step `k` is the last before state `j` that writes the row of message `m`. */
  ghost predicate LastWrite(states: seq<Tables>, steps: seq<TimedStep>, k: nat, j: nat, m: Id)
    requires |states| == |steps| + 1
  {
    && k < j < |states| && m in states[k + 1].outbox && Writes(states[k], steps[k].step, m)
    && forall i :: k < i < j ==> !Writes(states[i], steps[i].step, m)
  }

  /** Since its last write a row stays as it is, whatever else runs, so it is due the delay of that write after it. */
  lemma {:induction false} DueSinceLastWrite(states: seq<Tables>, steps: seq<TimedStep>, k: nat, j: nat, m: Id)
    requires IsRun(states, steps) && LastWrite(states, steps, k, j, m)
    ensures m in states[j].outbox && states[j].outbox[m] == states[k + 1].outbox[m]
    ensures states[j].outbox[m].nextAttemptAt == Due(steps[k])
  {
    hide Apply, Enabled, Due;
    if j == k + 1 {
      StepWritesMessage(states[k], steps[k], m);
    } else {
      assert !Writes(states[j - 1], steps[j - 1].step, m);
      DueSinceLastWrite(states, steps, k, j - 1, m);
      StepKeepsMessages(states[j - 1], steps[j - 1], m);
      StepWritesMessage(states[j - 1], steps[j - 1], m);
    }
  }

  /** Every row has a last write: the submission that added it, or an attempt to publish it. */
  lemma {:induction false} WrittenLast(states: seq<Tables>, steps: seq<TimedStep>, j: nat, m: Id) returns (k: nat)
    requires IsRun(states, steps) && j < |states| && m in states[j].outbox
    ensures LastWrite(states, steps, k, j, m)
  {
    hide Apply, Enabled;
    if j == 0 {
      assert false;
    } else if Writes(states[j - 1], steps[j - 1].step, m) {
      k := j - 1;
    } else {
      k := WrittenLast(states, steps, j - 1, m);
    }
  }

  /** The attempts to publish message `m` that failed. */
  ghost function FailedAttempts(steps: seq<TimedStep>, m: Id): nat {
    if steps == [] then 0
    else
      var (before, s) := (FailedAttempts(steps[..|steps| - 1], m), steps[|steps| - 1].step);
      before + if s.PublishStep? && s.message == m && !s.delivered then 1 else 0
  }

  /** When message `m` was last delivered. */
  ghost function LastDelivery(steps: seq<TimedStep>, m: Id): Option<Time> {
    if steps == [] then None
    else
      var last := steps[|steps| - 1];
      if last.step.PublishStep? && last.step.message == m && last.step.delivered then Some(last.now)
      else LastDelivery(steps[..|steps| - 1], m)
  }

  /** Each row counts its failed attempts, and has the time of its last delivery. */
  lemma {:induction false} RowsCountAttempts(states: seq<Tables>, steps: seq<TimedStep>, j: nat, m: Id)
    requires IsRun(states, steps) && j < |states|
    ensures m in states[j].outbox ==>
              states[j].outbox[m].attempts == FailedAttempts(steps[..j], m)
              && states[j].outbox[m].publishedAt == LastDelivery(steps[..j], m)
    ensures m !in states[j].outbox ==> FailedAttempts(steps[..j], m) == 0 && LastDelivery(steps[..j], m).None?
  {
    hide Apply, Enabled;
    if j > 0 {
      RowsCountAttempts(states, steps, j - 1, m);
      assert steps[..j][..j - 1] == steps[..j - 1];
      CountsOneAttempt(states[j - 1], steps[j - 1], m);
      hide IsRun;
    }
  }

  lemma CountsOneAttempt(t: Tables, s: TimedStep, m: Id)
    requires Enabled(t, s.step, s.now)
    ensures var (u, tries) := (Apply(t, s.step, s.now), s.step.PublishStep? && s.step.message == m);
            && (m !in t.outbox ==> !tries && (m in u.outbox ==> u.outbox[m].attempts == 0 && u.outbox[m].publishedAt.None?))
            && (m in t.outbox ==>
                  && m in u.outbox
                  && u.outbox[m].attempts == t.outbox[m].attempts + (if tries && !s.step.delivered then 1 else 0)
                  && u.outbox[m].publishedAt == if tries && s.step.delivered then Some(s.now) else t.outbox[m].publishedAt)
  {
    if s.step.SubmitStep? {
      NewRowIsUncounted(t, s.step, s.now, m);
      hide Apply, Enabled;
    } else if s.step.PublishStep? {
      hide Publishable;
    } else {
      StepKeepsTheRest(t, s.step, s.now);
      hide Apply, Enabled;
    }
  }

  lemma NewRowIsUncounted(t: Tables, s: Step, now: Time, m: Id)
    requires Enabled(t, s, now) && s.SubmitStep?
    ensures var u := Apply(t, s, now);
            && (m in t.outbox ==> m in u.outbox && u.outbox[m] == t.outbox[m])
            && (m !in t.outbox && m in u.outbox ==> u.outbox[m].attempts == 0 && u.outbox[m].publishedAt.None?)
  {
    hide ToTaskSnapshot, ExistingFor, Log;
  }

  /**
   In every state an operation that can be claimed has its outbox row, and the row is selectable exactly
   from the time of its own last write plus the delay of that write on, whatever else ran since.
   */
  lemma ClaimableBecomesPublishable(states: seq<Tables>, steps: seq<TimedStep>, j: nat, o: Id, now: Time) returns (m: Id, k: nat)
    requires IsRun(states, steps) && j < |states|
    requires o in states[j].operations && Claimable(states[j].operations[o], now)
    ensures m in states[j].outbox && states[j].outbox[m].operation == o && LastWrite(states, steps, k, j, m)
    ensures Publishable(states[j], m, now) <==> Due(steps[k]) <= now
  {
    hide IsRun;
    OneMessageEach(states, steps, j, o);
    m :| m in states[j].outbox && states[j].outbox[m].operation == o;
    k := WrittenLast(states, steps, j, m);
    DueSinceLastWrite(states, steps, k, j, m);
  }

  /** Nothing is published again for an operation that is delivered and cannot be claimed. */
  lemma PublishedAgainIff(t: Tables, m: Id, now: Time)
    requires m in t.outbox && t.outbox[m].operation in t.operations && t.outbox[m].publishedAt.Some?
    ensures Publishable(t, m, now)
            <==> t.outbox[m].nextAttemptAt <= now && Claimable(t.operations[t.outbox[m].operation], now)
  {
  }

  // ---------------------------------------------------------------- publisher runs at one instant

  datatype Attempt = Attempt(message: Id, delivered: bool)

  ghost function Eligible(t: Tables, now: Time): set<Id> {
    set m | m in t.outbox && Publishable(t, m, now)
  }

  /** The attempted row can be selected again at the same instant: its delay is not positive, and it is still wanted. */
  ghost predicate Remains(t: Tables, a: Attempt, delays: Delays, now: Time)
    requires a.message in t.outbox && t.outbox[a.message].operation in t.operations
  {
    if a.delivered then delays.republish <= 0 && Claimable(t.operations[t.outbox[a.message].operation], now)
    else delays.retry <= 0
  }

  /** What an attempt leaves of the eligible rows: all others, and its own row exactly when it remains. */
  lemma AttemptLeaves(t: Tables, a: Attempt, delays: Delays, now: Time)
    requires a.message in t.outbox && Publishable(t, a.message, now)
    ensures var u := Publish(t, a.message, a.delivered, delays, now);
            Eligible(u, now) == if Remains(t, a, delays, now) then Eligible(t, now) else Eligible(t, now) - {a.message}
  {
    var u := Publish(t, a.message, a.delivered, delays, now);
    assert forall m :: m != a.message ==> (m in u.outbox <==> m in t.outbox) && (m in t.outbox ==> u.outbox[m] == t.outbox[m]);
  }

  /** Publisher runs one after another at the same instant, each on any row its query may select. */
  ghost predicate Sweep(t: Tables, attempts: seq<Attempt>, delays: Delays, now: Time)
    decreases |attempts|
  {
    attempts != [] ==>
      && attempts[0].message in t.outbox && Publishable(t, attempts[0].message, now)
      && Sweep(Publish(t, attempts[0].message, attempts[0].delivered, delays, now), attempts[1..], delays, now)
  }

  /**
   With positive delays, publisher runs at one instant attempt different rows, and as many runs as
   there are eligible rows attempt them all.
   */
  lemma {:induction false} SweepReachesAll(t: Tables, attempts: seq<Attempt>, delays: Delays, now: Time)
    requires delays.retry > 0 && delays.republish > 0 && Sweep(t, attempts, delays, now)
    ensures |attempts| <= |Eligible(t, now)|
    ensures (set a | a in attempts :: a.message) <= Eligible(t, now)
    ensures |attempts| == |Eligible(t, now)| ==> (set a | a in attempts :: a.message) == Eligible(t, now)
    decreases |attempts|
  {
    if attempts != [] {
      var (a, rest) := (attempts[0], attempts[1..]);
      var u := Publish(t, a.message, a.delivered, delays, now);
      AttemptLeaves(t, a, delays, now);
      assert a.message in Eligible(t, now);
      assert |Eligible(u, now)| == |Eligible(t, now)| - 1;
      SweepReachesAll(u, rest, delays, now);
      MessagesOf(attempts);
    } else {
      EmptySetIff(Eligible(t, now));
    }
  }

  lemma EmptySetIff(s: set<Id>)
    ensures |s| == 0 <==> s == {}
  {
  }

  lemma MessagesOf(attempts: seq<Attempt>)
    requires attempts != []
    ensures (set a | a in attempts :: a.message) == {attempts[0].message} + (set a | a in attempts[1..] :: a.message)
  {
    assert attempts == [attempts[0]] + attempts[1..];
  }

  /** The order of ids, character by character. */
  predicate IdLess(a: Id, b: Id) {
    b != [] && (a == [] || a[0] < b[0] || (a[0] == b[0] && IdLess(a[1..], b[1..])))
  }

  /** `ORDER BY created_at, message_id`. */
  ghost predicate Before(t: Tables, m: Id, n: Id)
    requires m in t.outbox && n in t.outbox
  {
    t.outbox[m].createdAt < t.outbox[n].createdAt || (t.outbox[m].createdAt == t.outbox[n].createdAt && IdLess(m, n))
  }

  /** The row that a publisher run selects when no other run holds a lock. */
  ghost predicate First(t: Tables, m: Id, now: Time) {
    && m in t.outbox && Publishable(t, m, now)
    && forall n :: n in t.outbox && Publishable(t, n, now) ==> !Before(t, n, m)
  }

  /** Publisher runs one after another at the same instant, each on the first eligible row. */
  ghost predicate OrderedSweep(t: Tables, attempts: seq<Attempt>, delays: Delays, now: Time)
    decreases |attempts|
  {
    attempts != [] ==>
      && First(t, attempts[0].message, now)
      && OrderedSweep(Publish(t, attempts[0].message, attempts[0].delivered, delays, now), attempts[1..], delays, now)
  }

  lemma {:induction false} OrderedIsSweep(t: Tables, attempts: seq<Attempt>, delays: Delays, now: Time)
    requires OrderedSweep(t, attempts, delays, now)
    ensures Sweep(t, attempts, delays, now)
    decreases |attempts|
  {
    if attempts != [] {
      OrderedIsSweep(Publish(t, attempts[0].message, attempts[0].delivered, delays, now), attempts[1..], delays, now);
    }
  }

  /** The first row is still the first after its attempt exactly when it remains at all. */
  lemma StaysFirstIff(t: Tables, a: Attempt, delays: Delays, now: Time)
    requires First(t, a.message, now)
    ensures var u := Publish(t, a.message, a.delivered, delays, now);
            && (First(u, a.message, now) <==> Remains(t, a, delays, now))
            && (Remains(t, a, delays, now) ==> Remains(u, a, delays, now))
  {
    var u := Publish(t, a.message, a.delivered, delays, now);
    AttemptLeaves(t, a, delays, now);
    assert forall m :: m in Eligible(t, now) <==> m in t.outbox && Publishable(t, m, now);
    assert forall m :: m in Eligible(u, now) <==> m in u.outbox && Publishable(u, m, now);
    assert u.operations == t.operations && u.outbox.Keys == t.outbox.Keys;
    assert u.outbox[a.message].operation == t.outbox[a.message].operation;
    assert forall m :: m in t.outbox ==> u.outbox[m].createdAt == t.outbox[m].createdAt;
    hide Publishable, Publish, Claimable, IdLess, Eligible;
  }

  /**
   Any number of publisher runs at one instant attempt only the first row, and none of the others,
   exactly when the delay for its kind of outcome is not positive: the retry delay of a row that is not
   delivered, or the republishing delay of one that is and can still be claimed.
   */
  lemma {:induction false} FirstRowStarvesIff(t: Tables, a: Attempt, delays: Delays, now: Time, n: nat)
    requires First(t, a.message, now) && n >= 2
    ensures OrderedSweep(t, seq(n, _ => a), delays, now) <==> Remains(t, a, delays, now)
    decreases n
  {
    var u := Publish(t, a.message, a.delivered, delays, now);
    hide First, Remains, Publish;
    SweepStep(t, a, delays, now, n);
    SweepStep(u, a, delays, now, n - 1);
    StaysFirstIff(t, a, delays, now);
    if n > 2 {
      if Remains(t, a, delays, now) {
        FirstRowStarvesIff(u, a, delays, now, n - 1);
      }
    } else {
      assert seq(0, _ => a) == [];
    }
  }

  lemma SweepStep(t: Tables, a: Attempt, delays: Delays, now: Time, n: nat)
    requires n >= 1
    ensures OrderedSweep(t, seq(n, _ => a), delays, now)
            <==> First(t, a.message, now)
                 && OrderedSweep(Publish(t, a.message, a.delivered, delays, now), seq(n - 1, _ => a), delays, now)
  {
    assert seq(n, _ => a)[1..] == seq(n - 1, _ => a) && seq(n, _ => a)[0] == a;
  }

  // ---------------------------------------------------------------- acknowledgements

  /** The worker acknowledges at once when there is nothing to execute. */
  function AckAfterClaim(r: ClaimResult): bool {
    r.AlreadyFinished? || r.UnknownOperation?
  }

  function AckAfterComplete(r: CompleteResult): bool {
    r.CommittedResult? || (r.CommittedSnapshot? && r.snapshot.state != FailedRetryable)
  }

  lemma AckedIsFinished(t: Tables, o: Id, worker: Id, lease: int, freshRun: Id, now: Time)
    requires Enabled(t, ClaimStep(o, worker, lease, freshRun), now)
    ensures AckAfterClaim(ClaimNext(t, o, worker, lease, freshRun, now).1)
            <==> o !in t.operations || Finished(t.operations[o].state)
  {
    hide StartAttempt, AnnounceRunning;
  }

  /** A message acknowledged at the claim is for no operation, or for one that is never claimable again. */
  lemma AckedAtClaimIsOver(states: seq<Tables>, steps: seq<TimedStep>, i: nat, j: nat,
                           o: Id, worker: Id, lease: int, freshRun: Id, now: Time, later: Time)
    requires IsRun(states, steps) && i <= j < |states|
    requires Enabled(states[i], ClaimStep(o, worker, lease, freshRun), now)
    requires AckAfterClaim(ClaimNext(states[i], o, worker, lease, freshRun, now).1)
    ensures o in states[i].operations ==> o in states[j].operations && !Claimable(states[j].operations[o], later)
  {
    hide IsRun, Inv, Apply;
    AckedIsFinished(states[i], o, worker, lease, freshRun, now);
    hide ClaimNext;
    RunAdvances(states, steps, i, j);
    if o in states[i].operations {
      assert RowEvolves(states[i], states[j], o);
    }
  }

  /**
   After executing, the worker acknowledges exactly when its completion was committed and the operation
   cannot be claimed in the database it left.
   */
  lemma AckedAfterCompleteIff(t: Tables, o: Id, worker: Id, outcome: Outcome, now: Time, later: Time)
    requires Inv(t)
    ensures var (u, r) := Complete(t, o, worker, outcome, None, now);
            AckAfterComplete(r) <==> IsCommit(r) && o in u.operations && !Claimable(u.operations[o], later)
  {
    hide Inv, PauseFits, MayCommit;
    CompletionCommitsIff(t, o, worker, outcome, None, now);
    CommitAnswers(t, o, worker, outcome, now);
    hide Complete;
  }

  lemma CommitAnswers(t: Tables, o: Id, worker: Id, outcome: Outcome, now: Time)
    ensures var r := Complete(t, o, worker, outcome, None, now).1;
            && (r.CommittedSnapshot? ==> r.snapshot.state == OutcomeState(outcome))
            && (r.CommittedResult? ==> OutcomeState(outcome) == Completed)
  {
    if Completable(t, o, worker, outcome, now) {
      RecordAnswers(t, o, outcome, now);
    }
    hide Completable, Decodes, Record;
  }

  lemma RecordAnswers(t: Tables, o: Id, outcome: Outcome, now: Time)
    requires o in t.operations
    ensures var r := Record(t, o, outcome, now).1;
            && (r.CommittedSnapshot? ==> r.snapshot.state == OutcomeState(outcome))
            && (r.CommittedResult? ==> OutcomeState(outcome) == Completed)
  {
    hide ValidPaused, ValidResult, StoredResult, StoredPause, PauseEvents, ResultEvents, Append, Log, WithRow;
  }
}
