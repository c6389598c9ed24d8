/** Runs whose paused outcomes bring no completion: there every completed log ends in its completion. */
module TaskCompletions {
  import opened Wrappers
  import opened TaskTypes
  import opened TaskTransactions
  import opened TaskLogs
  import opened TaskInvariants
  import opened TaskSteps
  import opened TaskRuns
  import opened TaskTheorems

  /** A log that may go on has no completion; a completed one ends in it. */
  ghost predicate TidyRow(row: Operation, log: seq<RunEvent>) {
    && (row.state == Accepted || row.state == Running || row.state.Paused? ==> TaskCompleted !in States(log))
    && (row.state == Completed ==> log != [] && Last(log).taskState == TaskCompleted)
  }

  ghost predicate Tidy(t: Tables) {
    forall o :: o in t.operations ==> TidyRow(t.operations[o], Log(t, t.operations[o].run))
  }

  /** The step commits no paused outcome with a completion among its events. */
  ghost predicate Clean(s: Step) {
    s.CompleteStep? && s.outcome.PausedWith? ==> TaskCompleted !in States(s.outcome.paused.runEvents)
  }

  // ---------------------------------------------------------------- frames

  /** One operation rewritten, on its run or on a fresh one; no other log changed. */
  lemma TidyAfterRewrite(t: Tables, u: Tables, o: Id)
    requires Inv(t) && Tidy(t) && o in u.operations && u.operations == t.operations[o := u.operations[o]]
    requires u.operations[o].run !in t.runs || (o in t.operations && u.operations[o].run == t.operations[o].run)
    requires forall r :: r != u.operations[o].run ==> Log(u, r) == Log(t, r)
    requires TidyRow(u.operations[o], Log(u, u.operations[o].run))
    ensures Tidy(u)
  {
    hide Inv, TidyRow, RowOk, LogOk;
    forall p | p in u.operations ensures TidyRow(u.operations[p], Log(u, u.operations[p].run)) {
      if p != o {
        InvAt(t, p);
        if o in t.operations {
          InvAt(t, o);
        }
      }
    }
  }

  lemma TidyAfterAppend(t: Tables, o: Id, row: Operation, events: seq<RunEvent>)
    requires Inv(t) && Tidy(t) && o in t.operations && row.run == t.operations[o].run
    requires TidyRow(row, Log(t, row.run) + events)
    ensures Tidy(Append(WithRow(t, o, row), row.run, events))
  {
    hide Inv, Tidy, TidyRow, Append, WithRow, Log;
    var u := Append(WithRow(t, o, row), row.run, events);
    AppendedRow(t, o, row, events);
    AppendedLogs(t, u, row.run, events);
    TidyAfterRewrite(t, u, o);
  }

  lemma AppendedLogs(t: Tables, u: Tables, run: Id, events: seq<RunEvent>)
    requires u.events == if events == [] then t.events else t.events[run := Log(t, run) + events]
    ensures Log(u, run) == Log(t, run) + events
    ensures forall r :: r != run ==> Log(u, r) == Log(t, r)
  {
    assert Log(t, run) + [] == Log(t, run);
  }

  /** Operations and events are what they were. */
  lemma TidyAfterOther(t: Tables, u: Tables)
    requires Tidy(t) && u.operations == t.operations && u.events == t.events
    ensures Tidy(u)
  {
  }

  lemma StatesOfConcat(a: seq<RunEvent>, b: seq<RunEvent>)
    ensures States(a + b) == States(a) + States(b)
  {
    forall s | s in States(a) + States(b) ensures s in States(a + b) {
      if s in States(a) {
        var i :| 0 <= i < |a| && a[i].taskState == s;
        assert (a + b)[i].taskState == s;
      } else {
        var i :| 0 <= i < |b| && b[i].taskState == s;
        assert (a + b)[|a| + i].taskState == s;
      }
    }
    forall s | s in States(a + b) ensures s in States(a) + States(b) {
      var i :| 0 <= i < |a + b| && (a + b)[i].taskState == s;
      assert i < |a| ==> a[i].taskState == s;
      assert i >= |a| ==> b[i - |a|].taskState == s;
    }
  }

  // ---------------------------------------------------------------- claims

  lemma FirstClaimIsTidy(t: Tables, o: Id, worker: Id, lease: int, freshRun: Id, now: Time)
    requires Inv(t) && Tidy(t) && Enabled(t, ClaimStep(o, worker, lease, freshRun), now)
    requires o in t.operations && Claimable(t.operations[o], now) && t.operations[o].state != FailedRetryable
    ensures Tidy(ClaimNext(t, o, worker, lease, freshRun, now).0)
  {
    hide Inv, RowOk, LogOk, States;
    InvAt(t, o);
    var row := t.operations[o];
    var log := Log(t, row.run);
    LogHasFirst(log, row.run, row.task);
    var claimed := ClaimedRow(row, row.run, worker, lease, now);
    var events := if Last(log).taskState == Understanding then []
                  else [UnderstandingEvent(row, row.run, |log| + 1, now, "决策任务开始执行")];
    assert Append(WithRow(t, o, claimed), row.run, events) == ClaimNext(t, o, worker, lease, freshRun, now).0;
    assert TaskCompleted !in States(log);
    hide Tidy, Append, WithRow, ClaimNext;
    StatesOfConcat(log, events);
    assert TaskCompleted !in States(events) by {
      StatesOfFew(events);
    }
    TidyAfterAppend(t, o, claimed, events);
  }

  lemma StatesOfFew(events: seq<RunEvent>)
    requires |events| <= 1
    ensures States(events) == if events == [] then {} else {events[0].taskState}
  {
  }

  lemma RetryIsTidy(t: Tables, o: Id, worker: Id, lease: int, freshRun: Id, now: Time)
    requires Inv(t) && Tidy(t) && Enabled(t, ClaimStep(o, worker, lease, freshRun), now)
    requires o in t.operations && t.operations[o].state == FailedRetryable && freshRun !in t.runs
    ensures Tidy(ClaimNext(t, o, worker, lease, freshRun, now).0)
  {
    hide ClaimNext, OperationsOk, RequestsOk, OutboxOk, SubmissionsOk, LogOk, Tidy;
    assert freshRun !in t.events;
    RetryEffect(t, o, worker, lease, freshRun, now);
    var u := ClaimNext(t, o, worker, lease, freshRun, now).0;
    assert forall r :: r != freshRun ==> Log(u, r) == Log(t, r);
    hide Inv, Log;
    TidyAfterRewrite(t, u, o);
  }

  // ---------------------------------------------------------------- completion

  /** What a pause adds has the states of its own events, or is the pause itself. */
  lemma PauseBringsItsStates(log: seq<RunEvent>, p: PausedOutcome, row: Operation, now: Time)
    requires TaskCompleted !in States(p.runEvents)
    ensures TaskCompleted !in States(PauseEvents(log, p, row, now))
  {
    hide Unseen;
    UnseenAre(p.runEvents, States(log));
    var (events, unseen) := (PauseEvents(log, p, row, now), Unseen(p.runEvents, States(log)));
    forall i | 0 <= i < |events| ensures events[i].taskState != TaskCompleted {
      if events[i].taskState != TaskPaused(p.kind) {
        var j :| 0 <= j < |p.runEvents| && p.runEvents[j] == unseen[i];
        assert p.runEvents[j].taskState in States(p.runEvents);
      }
    }
  }

  lemma ReleasedIsTidy(t: Tables, o: Id, state: OperationState, payload: Payload, at: Time, events: seq<RunEvent>)
    requires Inv(t) && Tidy(t) && o in t.operations
    requires state != Accepted && state != Running
    requires state.Paused? ==> TaskCompleted !in States(Log(t, t.operations[o].run) + events)
    requires state == Completed ==> events != [] && Last(events).taskState == TaskCompleted
    ensures Tidy(Append(WithRow(t, o, ReleasedRow(t.operations[o], state, payload, at)), t.operations[o].run, events))
  {
    hide Inv, Tidy, States, Append, WithRow, Log;
    TidyAfterAppend(t, o, ReleasedRow(t.operations[o], state, payload, at), events);
  }

  lemma PauseIsTidy(t: Tables, o: Id, p: PausedOutcome, now: Time)
    requires Inv(t) && Tidy(t) && o in t.operations && t.operations[o].state == Running
    requires TaskCompleted !in States(p.runEvents)
    ensures Tidy(RecordPause(t, o, p, now).0)
  {
    var row := t.operations[o];
    var log := Log(t, row.run);
    assert TaskCompleted !in States(log);
    hide Inv, Tidy, States, ValidPaused, PauseEvents, Append, WithRow, Log, ToTaskSnapshot;
    var events := PauseEvents(log, p, row, now);
    PauseBringsItsStates(log, p, row, now);
    StatesOfConcat(log, events);
    var stored := StoredPause(log, p, row, now);
    if ValidPaused(stored) {
      ReleasedIsTidy(t, o, Paused(p.kind), Stored(PausedWith(stored)), Last(stored.runEvents).occurredAt, events);
    }
  }

  /** A success ends the log of a run without completion with its completion. */
  lemma SuccessEndsLog(log: seq<RunEvent>, r: TaskResult, row: Operation, now: Time)
    requires LogOk(log, row.run, row.task) && (HasPause(log) || JustStarted(log)) && TaskCompleted !in States(log)
    requires ValidResult(r) && r.ok
    ensures var added := ResultEvents(log, r.runEvents, row, now); added != [] && Last(added).taskState == TaskCompleted
  {
    hide ValidResult, HasPause, JustStarted, ResultEvents;
    CompletedLogEndsIff(log, r, row, now);
    LastOfConcat(log, ResultEvents(log, r.runEvents, row, now));
  }

  lemma LastOfConcat(log: seq<RunEvent>, added: seq<RunEvent>)
    requires log != []
    ensures Last(log + added) == if added == [] then Last(log) else Last(added)
    ensures Last(log).taskState in States(log)
  {
    assert log + [] == log;
  }

  lemma ResultIsTidy(t: Tables, o: Id, r: TaskResult, now: Time)
    requires Inv(t) && Tidy(t) && o in t.operations && t.operations[o].state == Running && ValidResult(r)
    ensures Tidy(RecordResult(t, o, r, now).0)
  {
    hide OperationsOk, RunsOk, RequestsOk, OutboxOk, SubmissionsOk, PayloadOk, LogOk, States, ValidResult;
    InvAt(t, o);
    var row := t.operations[o];
    var log := Log(t, row.run);
    assert TaskCompleted !in States(log);
    if r.ok {
      SuccessEndsLog(log, r, row, now);
    }
    hide Inv, Tidy, ResultEvents, StoredResult, Append, WithRow, Log, ToTaskSnapshot, StateFitsLog;
    var stored := StoredResult(log, r, row, now);
    if stored.Some? {
      ReleasedIsTidy(t, o, OutcomeState(ResultWith(r)), Stored(ResultWith(stored.value)), stored.value.updatedAt,
                     ResultEvents(log, r.runEvents, row, now));
    }
  }

  lemma RecordIsTidy(t: Tables, o: Id, outcome: Outcome, now: Time)
    requires Inv(t) && Tidy(t) && o in t.operations && t.operations[o].state == Running && Decodes(outcome)
    requires outcome.PausedWith? ==> TaskCompleted !in States(outcome.paused.runEvents)
    ensures Tidy(Record(t, o, outcome, now).0)
  {
    hide Inv, Tidy, RecordPause, RecordResult, States, ValidPaused, ValidResult, ToTaskSnapshot, Append, WithRow, Log;
    match outcome
    case PausedWith(p) => PauseIsTidy(t, o, p, now);
    case ResultWith(r) => ResultIsTidy(t, o, r, now);
    case Explicit(_, _, _) =>
      var row := t.operations[o];
      ReleasedIsTidy(t, o, OutcomeState(outcome), Stored(outcome), now,
                     [FailureEvent(row, OutcomeState(outcome), |Log(t, row.run)| + 1, now)]);
  }

  lemma CompleteIsTidy(t: Tables, o: Id, worker: Id, outcome: Outcome, control: Option<Id>, now: Time)
    requires Inv(t) && Tidy(t) && (outcome.PausedWith? ==> TaskCompleted !in States(outcome.paused.runEvents))
    ensures Tidy(Complete(t, o, worker, outcome, control, now).0)
  {
    hide Inv, Tidy, Record, States, OutcomeFits, Decodes;
    if Decodes(outcome) && Completable(t, o, worker, outcome, now) {
      RecordIsTidy(t, o, outcome, now);
      var recorded := Record(t, o, outcome, now).0;
      if control.Some? && Closable(recorded, control.value, o, worker) {
        TidyAfterOther(recorded, Close(recorded, control.value, outcome, now));
      }
    }
  }

  // ---------------------------------------------------------------- control

  lemma CancelIsTidy(t: Tables, input: CancelInput, selected: Option<Id>, now: Time)
    requires Inv(t) && Tidy(t) && Newest(t, input.task, input.owner, selected)
    ensures Tidy(RequestCancel(t, input, selected, now).0)
  {
    hide Inv, Tidy, Newest, CancelOperation, SameRequest;
    var (u, answer) := RequestCancel(t, input, selected, now);
    if u != t {
      SelectedExists(t, input.task, input.owner, selected);
      var o := selected.value;
      CancelEffect(t, o, input, answer.value.value, now);
      assert forall r :: r != t.operations[o].run ==> Log(u, r) == Log(t, r);
      hide Log, RequestCancel;
      TidyAfterRewrite(t, u, o);
    }
  }

  lemma ControlClaimIsTidy(t: Tables, q: Id, worker: Id, lease: int, now: Time)
    requires Inv(t) && Tidy(t) && ControlSelectable(t, q, now)
    ensures Tidy(ClaimControl(t, q, worker, lease, now).0)
  {
    var request := t.requests[q];
    assert request.operation in t.operations && request.action.Resume?;
    hide Inv, Tidy, ClaimControl, RequestMatches, ControlSelectable, FailRequest;
    if RequestMatches(request, q, t.operations[request.operation]) && request.action.snapshotId in t.facts {
      MatchedClaimIsTidy(t, q, worker, lease, now);
    } else {
      UnmatchedClaimFails(t, q, worker, lease, now);
      FailureIsTidy(t, q, SnapshotInvalid, now);
      FailureIsTidy(t, q, Unavailable, now);
    }
  }

  lemma FailureIsTidy(t: Tables, q: Id, error: ControlError, now: Time)
    requires Tidy(t) && q in t.requests
    ensures Tidy(FailRequest(t, q, error, now))
  {
    hide Tidy;
    TidyAfterOther(t, FailRequest(t, q, error, now));
  }

  lemma UnmatchedClaimFails(t: Tables, q: Id, worker: Id, lease: int, now: Time)
    requires ControlSelectable(t, q, now)
    requires !RequestMatches(t.requests[q], q, t.operations[t.requests[q].operation]) || t.requests[q].action.snapshotId !in t.facts
    ensures ClaimControl(t, q, worker, lease, now).0 in {FailRequest(t, q, SnapshotInvalid, now), FailRequest(t, q, Unavailable, now)}
  {
    hide RequestMatches;
  }

  lemma MatchedClaimIsTidy(t: Tables, q: Id, worker: Id, lease: int, now: Time)
    requires Inv(t) && Tidy(t) && ControlSelectable(t, q, now)
    requires RequestMatches(t.requests[q], q, t.operations[t.requests[q].operation])
    requires t.requests[q].action.snapshotId in t.facts
    ensures Tidy(ClaimControl(t, q, worker, lease, now).0)
  {
    hide Inv, RowOk, LogOk, States, ReceiptsOf;
    var request := t.requests[q];
    var o := request.operation;
    var row := t.operations[o];
    var log := Log(t, row.run);
    InvAt(t, o);
    RowOfMatch(request, q, row, log);
    assert TaskCompleted !in States(log);
    var snapshot := t.facts[request.action.snapshotId];
    var failed := FailRequest(t, q, ResumeDenied, now);
    RequestKeepsTidy(t, q, failed);
    hide RequestMatches, Tidy;
    var u := ClaimControl(t, q, worker, lease, now).0;
    match RecoveryPermission(snapshot, ReceiptsOf(t, request.action.snapshotId))
    case PermissionDenied =>
    case ManualVerification =>
      var event := ManualVerificationEvent(request, snapshot.taskState, |log| + 1, now);
      assert WithRow(failed, o, row) == failed by {
        assert t.operations[o := row] == t.operations;
      }
      StatesOfFew([event]);
      StatesOfConcat(log, [event]);
      FailedRequestKeepsInv(t, q, now);
      hide WithRow, Append, FailRequest;
      TidyAfterAppend(failed, o, row, [event]);
    case ResumeAllowed =>
      ResumeIsTidy(t, q, worker, lease, now);
  }

  lemma RequestKeepsTidy(t: Tables, q: Id, u: Tables)
    requires Tidy(t) && u == t.(requests := u.requests)
    ensures Tidy(u)
  {
  }

  lemma FailedRequestKeepsInv(t: Tables, q: Id, now: Time)
    requires Inv(t) && q in t.requests
    ensures Inv(FailRequest(t, q, ResumeDenied, now))
  {
    hide Inv, Evolves;
    RequestUpdateKeepsInv(t, FailRequest(t, q, ResumeDenied, now), q);
  }

  lemma ResumeIsTidy(t: Tables, q: Id, worker: Id, lease: int, now: Time)
    requires Inv(t) && Tidy(t) && ControlSelectable(t, q, now)
    requires RequestMatches(t.requests[q], q, t.operations[t.requests[q].operation])
    requires ClaimControl(t, q, worker, lease, now).1.ControlClaimed?
    requires t.requests[q].run == t.operations[t.requests[q].operation].run
    requires TaskCompleted !in States(Log(t, t.requests[q].run))
    ensures Tidy(ClaimControl(t, q, worker, lease, now).0)
  {
    hide Inv, Evolves, States, Log, ReceiptsOf, RecoveryPermission, WithRow, Append, RequestMatches, Tidy, TidyRow;
    var request := t.requests[q];
    var o := request.operation;
    var row := t.operations[o];
    var log := Log(t, row.run);
    var expires := Some(now + lease);
    var claimed := row.(state := Running, worker := Some(worker), leaseExpiresAt := expires, updatedAt := now);
    var events := if request.state == RequestRunning then [] else [ResumeEvent(request, |log| + 1, now)];
    var held := t.(requests := t.requests[q :=
      request.(state := RequestRunning, worker := Some(worker), leaseExpiresAt := expires, updatedAt := now)]);
    AppendNothing(WithRow(held, o, claimed), row.run);
    RequestKeepsTidy(t, q, held);
    RequestUpdateKeepsInv(t, held, q);
    StatesOfFew(events);
    StatesOfConcat(log, events);
    RunningIsTidy(claimed, log + events);
    SameLog(t, held, row.run);
    TidyAfterAppend(held, o, claimed, events);
  }

  lemma SameLog(t: Tables, u: Tables, run: Id)
    requires u.events == t.events
    ensures Log(u, run) == Log(t, run)
  {
  }

  lemma RunningIsTidy(row: Operation, log: seq<RunEvent>)
    requires row.state == Running && TaskCompleted !in States(log)
    ensures TidyRow(row, log)
  {
  }

  // ---------------------------------------------------------------- every step

  lemma SubmitIsTidy(t: Tables, s: Step, now: Time)
    requires Inv(t) && Tidy(t) && Enabled(t, s, now) && s.SubmitStep?
    ensures Tidy(Apply(t, s, now))
  {
    hide Tidy, OperationsOk, RequestsOk, OutboxOk, SubmissionsOk, LogOk, Accept, ToTaskSnapshot, ExistingFor;
    var u := Apply(t, s, now);
    if u != t {
      assert s.ids.run !in t.events;
      AcceptEffect(t, s.command, s.owner, s.ids, now);
      assert forall r :: r != s.ids.run ==> Log(u, r) == Log(t, r);
      hide Inv;
      NewLogIsTidy(u.operations[s.ids.operation], Log(u, s.ids.run), s.command.task);
      TidyAfterRewrite(t, u, s.ids.operation);
    }
  }

  lemma NewLogIsTidy(row: Operation, log: seq<RunEvent>, task: Id)
    requires row.state == Accepted && RowOk(row, log) && LogOk(log, row.run, task)
    ensures TidyRow(row, log)
  {
  }

  lemma ClaimIsTidy(t: Tables, o: Id, worker: Id, lease: int, freshRun: Id, now: Time)
    requires Inv(t) && Tidy(t) && Enabled(t, ClaimStep(o, worker, lease, freshRun), now)
    ensures Tidy(ClaimNext(t, o, worker, lease, freshRun, now).0)
  {
    hide Inv, Tidy, StartAttempt, AnnounceRunning;
    if o in t.operations && Claimable(t.operations[o], now) {
      if t.operations[o].state != FailedRetryable {
        FirstClaimIsTidy(t, o, worker, lease, freshRun, now);
      } else if freshRun !in t.runs {
        RetryIsTidy(t, o, worker, lease, freshRun, now);
      }
    }
  }

  lemma StepIsTidy(t: Tables, s: Step, now: Time)
    requires Inv(t) && Tidy(t) && Enabled(t, s, now) && Clean(s)
    ensures Tidy(Apply(t, s, now))
  {
    hide Inv, Tidy, ClaimNext, Complete, RequestCancel, ClaimControl, Newest, ExistingFor, ToTaskSnapshot, SameRequest, States;
    if OnController(s) {
      ControllerStepEffect(t, s, now);
      hide Apply, Enabled;
      TidyAfterOther(t, Apply(t, s, now));
    } else {
      hide SaveFacts, RecordRunning, ResumeController, FinishController, CancelRuntime;
      match s
      case SubmitStep(_, _, _, _) => SubmitIsTidy(t, s, now);
      case ClaimStep(o, worker, lease, freshRun) => ClaimIsTidy(t, o, worker, lease, freshRun, now);
      case CompleteStep(o, worker, outcome, control) => CompleteIsTidy(t, o, worker, outcome, control, now);
      case RequestCancelStep(input, selected) => CancelIsTidy(t, input, selected, now);
      case ClaimControlStep(request, worker, lease) => ControlClaimIsTidy(t, request, worker, lease, now);
      case RequestResumeStep(_, _) => TidyAfterOther(t, Apply(t, s, now));
      case PublishStep(_, _, _) => TidyAfterOther(t, Apply(t, s, now));
    }
  }

  /**
   In every run whose committed paused outcomes bring no completion, a completed operation's log ends in
   its completion, and no operation that may go on has one.
   */
  lemma {:induction false} CleanRunsEndInCompletion(states: seq<Tables>, steps: seq<TimedStep>, i: nat)
    requires IsRun(states, steps) && i < |states| && forall k :: 0 <= k < |steps| ==> Clean(steps[k].step)
    ensures forall o :: o in states[i].operations ==> TidyRow(states[i].operations[o], Log(states[i], states[i].operations[o].run))
  {
    if i > 0 {
      hide Apply, Enabled, TidyRow, Clean, Inv;
      CleanRunsEndInCompletion(states, steps, i - 1);
      assert Tidy(states[i - 1]);
      RunAdvances(states, steps, i - 1, i - 1);
      StepIsTidy(states[i - 1], steps[i - 1].step, steps[i - 1].now);
    }
  }
}
