/** What each kind of committed outcome means for what may happen to the operation afterwards. */
module TaskOutcomes {
  import opened Wrappers
  import opened TaskTypes
  import opened TaskTransactions
  import opened TaskLogs
  import opened TaskInvariants
  import opened TaskSteps
  import opened TaskRuns
  import opened TaskTheorems
  import opened TaskCompletions
  import opened TaskClaims
  import opened TaskFencing

  /** Step `i` of the run commits the outcome of operation `o`. */
  ghost predicate CommitsAt(states: seq<Tables>, steps: seq<TimedStep>, i: nat, o: Id, outcome: Outcome) {
    && i < |steps| < |states| && steps[i].step.CompleteStep? && steps[i].step.operation == o && steps[i].step.outcome == outcome
    && IsCommit(Complete(states[i], o, steps[i].step.worker, outcome, steps[i].step.control, steps[i].now).1)
  }

  ghost predicate FailsForGood(outcome: Outcome) {
    match outcome
    case PausedWith(_) => false
    case ResultWith(r) => !r.ok
    case Explicit(state, _, _) => state == Final
  }

  /** A new cancellation of the operation: its request id is not in use, and the query selects the operation. */
  ghost predicate NewCancellation(t: Tables, input: CancelInput, o: Id) {
    input.request !in t.requests && Newest(t, input.task, input.owner, Some(o))
  }

  // ---------------------------------------------------------------- the row that a commit leaves

  /** What a commit writes to the row, spelled out for each kind of outcome. */
  ghost predicate RowTells(before: Operation, after: Operation, outcome: Outcome) {
    && after.run == before.run && after.task == before.task && after.execution == before.execution
    && after.worker.None? && after.leaseExpiresAt.None?
    && match outcome
       case PausedWith(p) =>
         && after.state == Paused(p.kind) && after.payload.Stored? && after.payload.outcome.PausedWith?
         && after.payload.outcome.paused == p.(runEvents := after.payload.outcome.paused.runEvents)
       case ResultWith(r) =>
         && after.state == (if r.ok then Completed else FailedFinal)
         && after.payload.Stored? && after.payload.outcome.ResultWith?
         && var s := after.payload.outcome.result;
            s == r.(latestEventSequence := s.latestEventSequence, updatedAt := s.updatedAt, runEvents := s.runEvents)
       case Explicit(Retryable, _, _) => after.state == FailedRetryable && after.payload == Stored(outcome)
       case Explicit(Final, _, _) => after.state == FailedFinal && after.payload == Stored(outcome)
       case Explicit(Part, _, _) => after.state == Partial && after.payload == Stored(outcome)
  }

  lemma RecordTells(t: Tables, o: Id, outcome: Outcome, now: Time)
    requires o in t.operations && !Record(t, o, outcome, now).1.CompleteFailed?
    ensures var u := Record(t, o, outcome, now).0;
            o in u.operations && RowTells(t.operations[o], u.operations[o], outcome)
  {
    AppendKeepsTheRest();
    RowIsWritten(o);
    hide ValidPaused, ValidResult, PauseEvents, ResultEvents, Append, Log, ToTaskSnapshot, WithRow;
    match outcome
    case PausedWith(p) =>
    case ResultWith(r) =>
    case Explicit(state, _, _) =>
  }

  lemma CommitTells(t: Tables, o: Id, worker: Id, outcome: Outcome, control: Option<Id>, now: Time)
    requires IsCommit(Complete(t, o, worker, outcome, control, now).1)
    ensures var u := Complete(t, o, worker, outcome, control, now).0;
            o in t.operations && o in u.operations && RowTells(t.operations[o], u.operations[o], outcome)
  {
    if o in t.operations && !Record(t, o, outcome, now).1.CompleteFailed? {
      RecordTells(t, o, outcome, now);
    }
    hide Record, Decodes, OutcomeFits, RowTells;
  }

  /** The state after the commit, and how every later one evolves from it. */
  lemma AfterCommit(states: seq<Tables>, steps: seq<TimedStep>, i: nat, j: nat, o: Id, outcome: Outcome)
    requires IsRun(states, steps) && CommitsAt(states, steps, i, o, outcome) && i < j < |states|
    ensures Inv(states[i]) && Inv(states[i + 1]) && Inv(states[j]) && Evolves(states[i + 1], states[j])
    ensures o in states[i].operations && o in states[i + 1].operations && o in states[j].operations
    ensures RowTells(states[i].operations[o], states[i + 1].operations[o], outcome)
    ensures RowEvolves(states[i + 1], states[j], o)
  {
    var s := steps[i].step;
    CommitTells(states[i], o, s.worker, outcome, s.control, steps[i].now);
    assert states[i + 1] == Apply(states[i], s, steps[i].now);
    hide IsRun, Inv, Complete, Apply, RowTells, RowEvolves;
    RunAdvances(states, steps, i, i);
    RunAdvances(states, steps, i + 1, j);
    RunAdvances(states, steps, j, j);
  }

  // ---------------------------------------------------------------- cancellation, final failures and partial outcomes

  /** A finished row is not claimed, and its message is acknowledged. */
  lemma FinishedIsNotClaimed(t: Tables, o: Id, worker: Id, lease: int, freshRun: Id, now: Time)
    requires Inv(t) && o in t.operations && t.operations[o].state in {FailedFinal, Partial, Completed, Cancelled}
    ensures Enabled(t, ClaimStep(o, worker, lease, freshRun), now)
    ensures ClaimNext(t, o, worker, lease, freshRun, now) == (t, AlreadyFinished)
  {
    ClaimGrantedIff(t, o, worker, lease, freshRun, now);
    hide Inv, ClaimNext;
  }

  /** What a granted cancellation leaves: a cancelled row that is not claimed, and a completed request. */
  ghost predicate CancelGranted(t: Tables, input: CancelInput, o: Id, now: Time)
    requires NewCancellation(t, input, o)
  {
    var (u, answer) := RequestCancel(t, input, Some(o), now);
    && o in u.operations && u.operations[o].state == Cancelled
    && answer == Ok(Some(ControlRequest(o, input.task, u.operations[o].run, input.owner, Cancel(input.cancellationId), input.correlation,
                                        RequestCompleted, None, None, now, now)))
    && input.request in u.requests && u.requests[input.request] == answer.value.value
    && Last(Log(u, u.operations[o].run)).taskState == TaskCancelled
    && Last(Log(u, u.operations[o].run)).occurredAt == now == u.operations[o].updatedAt
    && CancelledController(u, u.operations[o].run)
  }

  /** A new cancellation is granted exactly for an operation that has neither completed, nor failed for good, nor been cancelled. */
  lemma CancelGrantedIff(t: Tables, input: CancelInput, o: Id, now: Time)
    requires Inv(t) && NewCancellation(t, input, o)
    ensures o in t.operations
    ensures CancelGranted(t, input, o, now) <==> t.operations[o].state !in {Completed, FailedFinal, Cancelled}
    ensures !CancelGranted(t, input, o, now) <==> RequestCancel(t, input, Some(o), now) == (t, Err(CancelRejected))
  {
    hide Inv, Newest, RowOk, LogOk, CancelOperation;
    SelectedExists(t, input.task, input.owner, Some(o));
    InvAt(t, o);
    var row := t.operations[o];
    var request := ControlRequest(o, input.task, row.run, input.owner, Cancel(input.cancellationId), input.correlation,
                                  RequestCompleted, None, None, now, now);
    CancelEffect(t, o, input, request, now);
    var log := Log(t, row.run);
    var event := CancelEvent(row, |log| + 1, now);
    assert Last(log + [event]) == event;
  }

  lemma FailedForGood(before: Operation, after: Operation, outcome: Outcome)
    requires RowTells(before, after, outcome) && FailsForGood(outcome)
    ensures after.state == FailedFinal
  {
  }

  /** A committed final failure is for ever: the operation is never claimed again, and no new cancellation is granted. */
  lemma FinalFailureStays(states: seq<Tables>, steps: seq<TimedStep>, i: nat, j: nat, o: Id, outcome: Outcome,
                          worker: Id, lease: int, freshRun: Id, input: CancelInput, now: Time)
    requires IsRun(states, steps) && CommitsAt(states, steps, i, o, outcome) && i < j < |states| && FailsForGood(outcome)
    ensures Enabled(states[j], ClaimStep(o, worker, lease, freshRun), now)
    ensures ClaimNext(states[j], o, worker, lease, freshRun, now) == (states[j], AlreadyFinished)
    ensures NewCancellation(states[j], input, o) ==>
              RequestCancel(states[j], input, Some(o), now) == (states[j], Err(CancelRejected))
  {
    AfterCommit(states, steps, i, j, o, outcome);
    hide IsRun, Inv, Evolves, CommitsAt, ClaimNext, NewCancellation, RequestCancel, CancelGranted, RowTells, FailsForGood;
    FailedForGood(states[i].operations[o], states[i + 1].operations[o], outcome);
    FinishedIsNotClaimed(states[j], o, worker, lease, freshRun, now);
    if NewCancellation(states[j], input, o) {
      CancelGrantedIff(states[j], input, o, now);
    }
  }

  /** A committed partial outcome is never claimed again, but may be cancelled until it is. */
  lemma PartialMayBeCancelled(states: seq<Tables>, steps: seq<TimedStep>, i: nat, j: nat, o: Id, outcome: Outcome,
                              worker: Id, lease: int, freshRun: Id, input: CancelInput, now: Time)
    requires IsRun(states, steps) && CommitsAt(states, steps, i, o, outcome) && i < j < |states|
    requires outcome.Explicit? && outcome.state == Part
    ensures Enabled(states[j], ClaimStep(o, worker, lease, freshRun), now)
    ensures ClaimNext(states[j], o, worker, lease, freshRun, now) == (states[j], AlreadyFinished)
    ensures o in states[i + 1].operations && o in states[j].operations
    ensures states[j].operations[o] != states[i + 1].operations[o] ==> states[j].operations[o].state == Cancelled
    ensures NewCancellation(states[j], input, o) ==>
              (CancelGranted(states[j], input, o, now) <==> states[j].operations[o] == states[i + 1].operations[o])
  {
    AfterCommit(states, steps, i, j, o, outcome);
    hide IsRun, Inv, Evolves, CommitsAt, ClaimNext, Newest, CancelGranted, RequestCancel;
    FinishedIsNotClaimed(states[j], o, worker, lease, freshRun, now);
    if NewCancellation(states[j], input, o) {
      CancelGrantedIff(states[j], input, o, now);
    }
  }

  // ---------------------------------------------------------------- retryable outcomes

  /** The next claim of an operation whose attempt failed opens the next attempt, with a log of its own. */
  lemma RetryClaims(t: Tables, o: Id, worker: Id, lease: int, freshRun: Id, now: Time)
    requires Inv(t) && o in t.operations && t.operations[o].state == FailedRetryable && freshRun !in t.runs
    ensures Enabled(t, ClaimStep(o, worker, lease, freshRun), now)
    ensures t.operations[o].run in t.runs
    ensures var (u, r) := ClaimNext(t, o, worker, lease, freshRun, now);
            && r.Claimed? && r.run == freshRun
            && o in u.operations && u.operations[o].run == freshRun && u.operations[o].state == Running
            && freshRun in u.runs && u.runs[freshRun] == AgentRun(o, t.runs[t.operations[o].run].attempt + 1, now)
            && LogStatesAt(Log(u, freshRun), [Created, Understanding], now)
  {
    hide RunsOk, RequestsOk, OutboxOk, SubmissionsOk, RowOk, MaxAttempt, JustStarted, LogOk;
    assert OperationOk(t, o);
    MaxAttemptIsCurrent(t, o);
    NoEvents(t, freshRun);
    hide OperationsOk, AttemptsOk;
    ClaimGrantedIff(t, o, worker, lease, freshRun, now);
    ClaimWrites(t, o, worker, lease, freshRun, now);
    RetryEffect(t, o, worker, lease, freshRun, now);
    RetryLog(t, o, worker, lease, freshRun, now);
    hide ClaimNext;
  }

  lemma NoEvents(t: Tables, run: Id)
    requires Inv(t) && run !in t.runs
    ensures run !in t.events
  {
    hide OperationsOk, RequestsOk, OutboxOk, SubmissionsOk, LogOk;
  }

  /** The states of a log, all of whose events happened at one time. */
  ghost predicate LogStatesAt(log: seq<RunEvent>, states: seq<TaskState>, at: Time) {
    |log| == |states| && forall i :: 0 <= i < |log| ==> log[i].taskState == states[i] && log[i].occurredAt == at
  }

  lemma RetryLog(t: Tables, o: Id, worker: Id, lease: int, freshRun: Id, now: Time)
    requires o in t.operations && t.operations[o].execution in t.submissions
    requires t.operations[o].state == FailedRetryable && freshRun !in t.runs && freshRun !in t.events
    ensures LogStatesAt(Log(ClaimNext(t, o, worker, lease, freshRun, now).0, freshRun), [Created, Understanding], now)
  {
    var row := t.operations[o];
    var created := CreatedEvent(row.task, freshRun, now, "决策任务开始新的重试执行");
    var understanding := UnderstandingEvent(row, freshRun, 2, now, "决策任务开始执行");
    assert [created] + [understanding] == [created, understanding];
    assert Log(ClaimNext(t, o, worker, lease, freshRun, now).0, freshRun) == [created, understanding];
  }

  /** After a committed retryable failure, while its row is as it was left, the next claim opens attempt k + 1. */
  lemma RetryableIsRetried(states: seq<Tables>, steps: seq<TimedStep>, i: nat, j: nat, o: Id, outcome: Outcome,
                           worker: Id, lease: int, freshRun: Id, now: Time)
    requires IsRun(states, steps) && CommitsAt(states, steps, i, o, outcome) && i < j < |states|
    requires outcome.Explicit? && outcome.state == Retryable && freshRun !in states[j].runs
    requires o in states[i + 1].operations && o in states[j].operations && states[j].operations[o] == states[i + 1].operations[o]
    ensures o in states[i].operations && states[i].operations[o].run in states[i].runs
    ensures Enabled(states[j], ClaimStep(o, worker, lease, freshRun), now)
    ensures var (u, r) := ClaimNext(states[j], o, worker, lease, freshRun, now);
            && r.Claimed? && r.run == freshRun
            && o in u.operations && u.operations[o].run == freshRun && u.operations[o].state == Running
            && freshRun in u.runs
            && u.runs[freshRun] == AgentRun(o, states[i].runs[states[i].operations[o].run].attempt + 1, now)
            && LogStatesAt(Log(u, freshRun), [Created, Understanding], now)
  {
    AfterCommit(states, steps, i, j, o, outcome);
    InvAt(states[i], o);
    InvAt(states[i + 1], o);
    CompleteKeepsRuns(states, steps, i, j, o, outcome);
    hide IsRun, Inv, CommitsAt, ClaimNext, LogStatesAt, RowOk, LogOk, Evolves;
    RetryClaims(states[j], o, worker, lease, freshRun, now);
  }

  lemma CompleteKeepsRuns(states: seq<Tables>, steps: seq<TimedStep>, i: nat, j: nat, o: Id, outcome: Outcome)
    requires IsRun(states, steps) && CommitsAt(states, steps, i, o, outcome) && i < j < |states|
    ensures forall r :: r in states[i].runs ==> r in states[j].runs && states[j].runs[r] == states[i].runs[r]
  {
    hide IsRun, Inv, CommitsAt;
    RunAdvances(states, steps, i, j);
    forall r | r in states[i].runs ensures r in states[j].runs && states[j].runs[r] == states[i].runs[r] {
      assert RunEvolves(states[i], states[j], r);
    }
  }

  /** An explicit outcome, whichever, appends one failure to the log of the run, at the time of the commit. */
  lemma ExplicitIsLogged(t: Tables, o: Id, worker: Id, outcome: Outcome, control: Option<Id>, now: Time)
    requires outcome.Explicit? && IsCommit(Complete(t, o, worker, outcome, control, now).1)
    ensures o in t.operations
    ensures var (log, full) := (Log(t, t.operations[o].run), Log(Complete(t, o, worker, outcome, control, now).0, t.operations[o].run));
            && |full| == |log| + 1 && full[..|log|] == log
            && full[|log|].taskState == TaskFailed && full[|log|].eventType == RuntimeFailed && full[|log|].occurredAt == now
  {
    hide Decodes, OutcomeState, Append, WithRow, Log, ToTaskSnapshot, OutcomeControlError;
    if o in t.operations {
      var row := t.operations[o];
      var released := ReleasedRow(row, OutcomeState(outcome), Stored(outcome), now);
      var event := FailureEvent(row, OutcomeState(outcome), |Log(t, row.run)| + 1, now);
      AppendedRow(t, o, released, [event]);
      AppendedLogs(t, Append(WithRow(t, o, released), row.run, [event]), row.run, [event]);
    }
    CloseKeepsLogs(outcome, now);
  }

  lemma CloseKeepsLogs(outcome: Outcome, now: Time)
    ensures forall t: Tables, q, run :: q in t.requests ==> Log(Close(t, q, outcome, now), run) == Log(t, run)
  {
  }

  // ---------------------------------------------------------------- pauses

  /** The input names the snapshot and the task of its owner, and is confirmed by that owner for this request. */
  ghost predicate AsksToResume(t: Tables, input: ResumeInput, o: Id, snapshotId: Id) {
    && input.request !in t.requests && Newest(t, input.task, input.owner, Some(o))
    && input.snapshotId == snapshotId
    && input.confirmationOperation == input.request && input.confirmationUser == input.owner
  }

  /** The paused payload of the row is of this snapshot. */
  ghost predicate PausedOn(row: Operation, snapshotId: Id) {
    && row.state.Paused? && row.payload.Stored? && row.payload.outcome.PausedWith?
    && row.payload.outcome.paused.snapshot.snapshotId == snapshotId
  }

  /**
   A new resume request is accepted exactly when it is confirmed by its owner for itself and names the
   stored snapshot that the operation is paused on; it then waits to be claimed, and nothing else changes.
   */
  lemma ResumeAcceptedIff(t: Tables, input: ResumeInput, o: Id, now: Time)
    requires Inv(t) && input.request !in t.requests && Newest(t, input.task, input.owner, Some(o))
    ensures o in t.operations
    ensures var (u, answer) := RequestResume(t, input, Some(o), now);
            && ((answer.Ok? && answer.value.Some?) <==>
                  && input.confirmationOperation == input.request && input.confirmationUser == input.owner
                  && PausedOn(t.operations[o], input.snapshotId) && input.snapshotId in t.facts)
            && (answer.Ok? ==>
                  && answer.value.Some? && input.request in u.requests && u.requests[input.request] == answer.value.value
                  && answer.value.value == ControlRequest(o, input.task, t.operations[o].run, input.owner,
                                                          Resume(input.snapshotId, input.request, input.owner), input.correlation,
                                                          RequestAccepted, None, None, now, now)
                  && u == t.(requests := t.requests[input.request := answer.value.value])
                  && forall x :: ControlSelectable(u, input.request, x))
            && (!answer.Ok? ==> u == t)
  {
    hide Inv, Newest, LogOk, StateFitsLog;
    SelectedExists(t, input.task, input.owner, Some(o));
    InvAt(t, o);
  }

  /** After a committed pause, while its row is as it was left, a resume from its stored snapshot is accepted, and an ordinary claim deferred. */
  lemma PauseMayBeResumed(states: seq<Tables>, steps: seq<TimedStep>, i: nat, j: nat, o: Id, outcome: Outcome,
                          input: ResumeInput, worker: Id, lease: int, freshRun: Id, now: Time)
    requires IsRun(states, steps) && CommitsAt(states, steps, i, o, outcome) && i < j < |states| && outcome.PausedWith?
    requires o in states[i + 1].operations && o in states[j].operations && states[j].operations[o] == states[i + 1].operations[o]
    requires AsksToResume(states[j], input, o, outcome.paused.snapshot.snapshotId) && input.snapshotId in states[j].facts
    ensures var (u, answer) := RequestResume(states[j], input, Some(o), now);
            answer.Ok? && answer.value.Some? && input.request in u.requests && ControlSelectable(u, input.request, now)
    ensures Enabled(states[j], ClaimStep(o, worker, lease, freshRun), now)
    ensures ClaimNext(states[j], o, worker, lease, freshRun, now) == (states[j], Deferred)
  {
    AfterCommit(states, steps, i, j, o, outcome);
    hide IsRun, Inv, Evolves, CommitsAt, ClaimNext, Newest, RequestResume;
    ResumeAcceptedIff(states[j], input, o, now);
    ClaimGrantedIff(states[j], o, worker, lease, freshRun, now);
  }

  // ---------------------------------------------------------------- successes

  /**
   After a committed success, in every later state, reading returns the result that was committed: with
   its own events or with those of its run's log before them, ending when it was committed.
   */
  lemma SuccessIsRead(states: seq<Tables>, steps: seq<TimedStep>, i: nat, j: nat, o: Id, outcome: Outcome)
    requires IsRun(states, steps) && CommitsAt(states, steps, i, o, outcome) && i < j < |states|
    requires outcome.ResultWith? && outcome.result.ok
    ensures o in states[j].operations
    ensures var (view, r) := (View(states[j].operations[o]), outcome.result);
            && view.Ok? && view.value.ResultView?
            && var s := view.value.result;
               && s == r.(latestEventSequence := s.latestEventSequence, updatedAt := s.updatedAt, runEvents := s.runEvents)
               && EventsConsistent(s) && Last(s.runEvents).taskState == TaskCompleted
  {
    AfterCommit(states, steps, i, j, o, outcome);
    hide IsRun, Inv, Evolves, CommitsAt, View, EventsConsistent, ValidResult, LogOk, RowOk;
    InvAt(states[j], o);
    ResultIsRead(states[j].operations[o], Log(states[j], states[j].operations[o].run));
  }

  lemma ResultIsRead(row: Operation, log: seq<RunEvent>)
    requires RowOk(row, log) && row.state == Completed
    ensures row.payload.Stored? && row.payload.outcome.ResultWith?
    ensures View(row) == Ok(ResultView(row.payload.outcome.result))
    ensures EventsConsistent(row.payload.outcome.result) && Last(row.payload.outcome.result.runEvents).taskState == TaskCompleted
  {
    hide StateFitsLog, StagesAdvance, ValidPaused;
  }

  // ---------------------------------------------------------------- answers

  /** A snapshot tells what its row says; it is terminal exactly when the operation can no longer be cancelled. */
  lemma SnapshotTellsTheRow(row: Operation)
    ensures var s := ToTaskSnapshot(row);
            s.Ok? ==>
              && s.value.execution == row.execution && s.value.task == row.task && s.value.run == row.run
              && s.value.state == row.state && s.value.updatedAt == row.updatedAt && row.state != Completed
              && (s.value.terminal <==> row.state in {Completed, FailedFinal, Cancelled})
              && (row.state.Paused? <==> s.value.runtimeSnapshotId.Some?)
              && (row.state.Paused? ==> PausedOn(row, s.value.runtimeSnapshotId.value))
  {
    hide ValidPaused;
  }

  /** Whatever was committed, its answer is what reading the operation returns at once. */
  lemma AnswerIsWhatIsRead(t: Tables, o: Id, worker: Id, outcome: Outcome, control: Option<Id>, now: Time)
    requires Inv(t)
    ensures var (u, r) := Complete(t, o, worker, outcome, control, now);
            && (r.CommittedResult? ==> o in u.operations && View(u.operations[o]) == Ok(ResultView(r.result)))
            && (r.CommittedSnapshot? ==> o in u.operations && View(u.operations[o]) == Ok(SnapshotView(r.snapshot)))
  {
    hide Record, Decodes, OutcomeFits, View, Inv, OutcomeControlError;
    if Decodes(outcome) && Completable(t, o, worker, outcome, now) {
      RecordAnswersWithRow(t, o, outcome, now);
    }
  }

  lemma RecordAnswersWithRow(t: Tables, o: Id, outcome: Outcome, now: Time)
    requires Inv(t) && o in t.operations && t.operations[o].state == Running && Decodes(outcome) && OutcomeFits(outcome, t.operations[o])
    ensures var (u, r) := Record(t, o, outcome, now);
            && (r.CommittedResult? ==> o in u.operations && View(u.operations[o]) == Ok(ResultView(r.result)))
            && (r.CommittedSnapshot? ==> o in u.operations && View(u.operations[o]) == Ok(SnapshotView(r.snapshot)))
  {
    AppendKeepsTheRest();
    RowIsWritten(o);
    hide Inv, ValidPaused, ValidResult, PauseEvents, ResultEvents, Append, Log, WithRow;
    if outcome.ResultWith? {
      InvAt(t, o);
      ResultEndsNow(Log(t, t.operations[o].run), outcome.result, t.operations[o], now);
    }
    match outcome
    case PausedWith(p) =>
    case ResultWith(r) =>
    case Explicit(state, _, _) =>
  }

  /** A stored result is updated when it is committed. */
  lemma ResultEndsNow(log: seq<RunEvent>, r: TaskResult, row: Operation, now: Time)
    requires LogOk(log, row.run, row.task) && RowOk(row, log) && row.state == Running && ValidResult(r)
    ensures var s := StoredResult(log, r, row, now); s.Some? ==> s.value.updatedAt == now
  {
    if !HasPause(log) {
      hide ValidResult, LogOk, PayloadOk;
      FreshEvents(log, r, row, now);
      var added := ResultEvents(log, r.runEvents, row, now);
      assert Last(log + added) == Last(added);
    }
  }
}
