/** What holds of the decision-task database in every run. */
module TaskTheorems {
  import opened Wrappers
  import opened Text
  import opened TaskTypes
  import opened TaskTransactions
  import opened TaskLogs
  import opened TaskInvariants
  import opened TaskSteps
  import opened TaskRuns
  import CanonicalJson

  lemma RunAt(t: Tables, r: Id)
    requires Inv(t) && r in t.runs
    ensures RunOk(t, r)
  {
    hide OperationsOk, RequestsOk, OutboxOk, SubmissionsOk, LogOk;
  }

  lemma OperationAt(t: Tables, o: Id)
    requires Inv(t) && o in t.operations
    ensures OperationOk(t, o)
  {
    hide RunsOk, RequestsOk, OutboxOk, SubmissionsOk, AttemptsOk, RowOk;
  }

  // ---------------------------------------------------------------- logs and attempts

  /** In every state, each log is numbered from one, belongs to its run, and starts with Created. */
  lemma LogsAreNumbered(states: seq<Tables>, steps: seq<TimedStep>, i: nat, r: Id)
    requires IsRun(states, steps) && i < |states| && r in states[i].runs
    ensures var log := Log(states[i], r);
            && log != [] && log[0].taskState == Created
            && forall k :: 0 <= k < |log| ==> log[k].sequence == k + 1 && log[k].run == r
  {
    hide Inv, IsRun, Advances;
    RunAdvances(states, steps, i, i);
    RunAt(states[i], r);
  }

  /** Logs only grow, and the log of an earlier attempt, or of an ended operation, never does. */
  lemma LogsGrowOnlyWhileLive(states: seq<Tables>, steps: seq<TimedStep>, i: nat, j: nat, r: Id)
    requires IsRun(states, steps) && i <= j < |states| && r in states[i].runs
    ensures Log(states[i], r) <= Log(states[j], r)
    ensures !Live(states[i], r) ==> Log(states[j], r) == Log(states[i], r)
  {
    hide Inv, IsRun;
    RunAdvances(states, steps, i, j);
    assert RunEvolves(states[i], states[j], r);
  }

  /** In every state, the attempts of an operation are numbered 1..k, once each, and the current run is attempt k. */
  lemma AttemptsAreNumbered(states: seq<Tables>, steps: seq<TimedStep>, i: nat, o: Id)
    requires IsRun(states, steps) && i < |states| && o in states[i].operations
    ensures var t := states[i]; var current := t.operations[o].run;
            && current in t.runs && t.runs[current].operation == o
            && (forall a :: a in Attempts(t, o) <==> 1 <= a <= t.runs[current].attempt)
            && forall r, s | r in t.runs && s in t.runs && t.runs[r].operation == o == t.runs[s].operation ::
                 t.runs[r].attempt == t.runs[s].attempt ==> r == s
  {
    hide Inv, IsRun, Advances;
    RunAdvances(states, steps, i, i);
    var t := states[i];
    OperationAt(t, o);
    var k := t.runs[t.operations[o].run].attempt;
    forall a | 1 <= a <= k ensures a in Attempts(t, o) {
      assert HasAttempt(t, o, a);
    }
  }

  /** In every state, the stored outcome of an operation is of its current run, and meets its contract. */
  lemma PayloadsAreCurrent(states: seq<Tables>, steps: seq<TimedStep>, i: nat, o: Id)
    requires IsRun(states, steps) && i < |states| && o in states[i].operations
    ensures var row := states[i].operations[o];
            match row.payload
            case Stored(PausedWith(p)) => ValidPaused(p) && p.snapshot.run == row.run && p.snapshot.task == row.task
            case Stored(ResultWith(r)) => ValidResult(r) && r.run == row.run && r.task == row.task
            case _ => true
  {
    hide Inv, IsRun, Advances, ValidPaused, ValidResult;
    RunAdvances(states, steps, i, i);
    InvAt(states[i], o);
  }

  /** A resume request for an earlier attempt is refused whenever it is claimed, and nothing else changes. */
  lemma StaleResumeIsRefused(t: Tables, q: Id, worker: Id, lease: int, now: Time)
    requires Inv(t) && ControlSelectable(t, q, now)
    requires t.requests[q].run != t.operations[t.requests[q].operation].run
    ensures ClaimControl(t, q, worker, lease, now) == (FailRequest(t, q, SnapshotInvalid, now), ControlEmpty)
  {
    hide Inv, RowOk, LogOk;
    var row := t.operations[t.requests[q].operation];
    InvAt(t, t.requests[q].operation);
    RowOfMatch(t.requests[q], q, row, Log(t, row.run));
    hide RequestMatches;
  }

  // ---------------------------------------------------------------- ends

  /** An operation that completed, failed for good or was cancelled keeps its row and all its logs for ever. */
  lemma EndedIsFrozen(states: seq<Tables>, steps: seq<TimedStep>, i: nat, j: nat, o: Id)
    requires IsRun(states, steps) && i <= j < |states|
    requires o in states[i].operations && Uncancellable(states[i].operations[o].state)
    ensures o in states[j].operations && states[j].operations[o] == states[i].operations[o]
    ensures forall r :: r in states[j].runs && states[j].runs[r].operation == o ==>
              r in states[i].runs && Log(states[j], r) == Log(states[i], r)
  {
    hide Inv, IsRun;
    RunAdvances(states, steps, i, j);
    var (t, u) := (states[i], states[j]);
    RunAdvances(states, steps, j, j);
    assert RowEvolves(t, u, o);
    OperationAt(t, o);
    OperationAt(u, o);
    assert RunEvolves(t, u, t.operations[o].run);
    forall r | r in u.runs && u.runs[r].operation == o ensures r in t.runs && Log(u, r) == Log(t, r) {
      assert HasAttempt(t, o, u.runs[r].attempt);
      var s :| s in t.runs && t.runs[s].operation == o && t.runs[s].attempt == u.runs[r].attempt;
      assert RunEvolves(t, u, s);
    }
  }

  /** How the logs of ended operations end, in every state. */
  lemma EndsAreRecorded(states: seq<Tables>, steps: seq<TimedStep>, i: nat, o: Id)
    requires IsRun(states, steps) && i < |states| && o in states[i].operations
    ensures var row, log := states[i].operations[o], Log(states[i], states[i].operations[o].run);
            && (row.state == Cancelled ==> log != [] && Last(log).taskState == TaskCancelled)
            && (row.state == Completed ==>
                  log != [] && (Last(log).taskState == TaskCompleted <==> !EarlyCompletion(log)))
  {
    hide Inv, IsRun, Advances, PayloadOk;
    RunAdvances(states, steps, i, i);
    InvAt(states[i], o);
  }

  /** A cancelled operation and the controller of its run stay cancelled. */
  lemma CancellationWins(states: seq<Tables>, steps: seq<TimedStep>, i: nat, j: nat, o: Id)
    requires IsRun(states, steps) && i <= j < |states|
    requires o in states[i].operations && states[i].operations[o].state == Cancelled
    ensures o in states[j].operations && states[j].operations[o] == states[i].operations[o]
    ensures CancelledController(states[j], states[i].operations[o].run)
  {
    hide IsRun, Inv, Evolves;
    EndedIsFrozen(states, steps, i, j, o);
    RunAdvances(states, steps, j, j);
    OperationAt(states[j], o);
  }

  /** A cancelled controller row stays cancelled, whoever writes it. */
  lemma CancelledControllerStays(states: seq<Tables>, steps: seq<TimedStep>, i: nat, j: nat, run: Id)
    requires IsRun(states, steps) && i <= j < |states| && CancelledController(states[i], run)
    ensures CancelledController(states[j], run)
  {
    hide IsRun, Inv;
    RunAdvances(states, steps, i, j);
  }

  // ---------------------------------------------------------------- answers

  /**
   Reading an operation never fails; submitting its command again fails exactly when it has completed,
   and a completed operation reads as a result whose status points at the last of its events.
   */
  lemma ReadingSucceeds(t: Tables, o: Id)
    requires Inv(t) && o in t.operations
    ensures View(t.operations[o]).Ok?
    ensures ToTaskSnapshot(t.operations[o]) == Err(PersistenceUnavailable) <==> t.operations[o].state == Completed
    ensures t.operations[o].state == Completed <==> View(t.operations[o]).value.ResultView?
    ensures t.operations[o].state == Completed ==>
              var r := View(t.operations[o]).value.result;
              EventsConsistent(r) && r.latestEventSequence == |r.runEvents| && r.run == t.operations[o].run
  {
    hide Inv, RowOk, LogOk, EventsConsistent, View, ToTaskSnapshot;
    InvAt(t, o);
    RowReads(t.operations[o], Log(t, t.operations[o].run));
  }

  lemma RowReads(row: Operation, log: seq<RunEvent>)
    requires RowOk(row, log)
    ensures View(row).Ok? && (ToTaskSnapshot(row).Err? <==> row.state == Completed)
    ensures ToTaskSnapshot(row).Err? ==> ToTaskSnapshot(row).error == PersistenceUnavailable
    ensures row.state == Completed <==> View(row).value.ResultView?
    ensures row.state == Completed ==>
              var r := View(row).value.result;
              EventsConsistent(r) && r.latestEventSequence == |r.runEvents| && r.run == row.run
  {
    hide StateFitsLog, StagesAdvance, ValidPaused;
  }

  /** Resubmission changes nothing, and conflicts exactly when the owner or the command differs. */
  lemma ResubmissionConflictsIff(t: Tables, command: Command, owner: Id, o: Id, ids: SubmitIds, now: Time)
    requires Inv(t) && ExistingFor(t, command.execution, Some(o))
    requires var stored := t.submissions[command.execution].command.body;
             CanonicalJson.WellFormed(stored) && CanonicalJson.WellFormed(command.body)
    ensures var (u, answer) := Submit(t, command, owner, Some(o), ids, now);
            var stored := t.submissions[command.execution];
            && u == t
            && (answer == Err(IdempotencyConflict)
                <==> owner != stored.owner || !CanonicalJson.Equivalent(stored.command.body, command.body))
            && (answer == Err(PersistenceUnavailable)
                <==> answer != Err(IdempotencyConflict) && t.operations[o].state == Completed)
  {
    hide OperationsOk, RunsOk, RequestsOk, OutboxOk, CanonicalJson.Equivalent, CanonicalJson.WellFormed, CanonicalJson.Canonicalize;
    CanonicalJson.CanonicalTextIsNormalForm(t.submissions[command.execution].command.body, command.body);
    ReadingSucceeds(t, o);
    hide View;
  }

  // ---------------------------------------------------------------- completion

  /** A pause is accepted when its state is new to the log, or it brings no new state at all. */
  ghost predicate PauseFits(outcome: Outcome, log: seq<RunEvent>) {
    outcome.PausedWith? ==>
      TaskPaused(outcome.paused.kind) !in States(log) || States(outcome.paused.runEvents) <= States(log)
  }

  lemma ResultIsRecorded(t: Tables, o: Id, r: TaskResult, now: Time)
    requires Inv(t) && o in t.operations && t.operations[o].state == Running
    requires ValidResult(r) && r.run == t.operations[o].run && r.task == t.operations[o].task
    ensures !RecordResult(t, o, r, now).1.CompleteFailed?
  {
    hide Inv, LogOk, RowOk, ValidResult, StoredResult, ResultEvents, Append, WithRow;
    InvAt(t, o);
    ResultIsStored(t.operations[o], Log(t, t.operations[o].run), r, now);
  }

  /** A running row can store any result of its run: none is refused for the events in the log. */
  lemma ResultIsStored(row: Operation, log: seq<RunEvent>, r: TaskResult, now: Time)
    requires LogOk(log, row.run, row.task) && RowOk(row, log) && row.state == Running
    requires ValidResult(r) && r.run == row.run && r.task == row.task
    ensures var s := StoredResult(log, r, row, now);
            s.Some? && ValidResult(s.value) && s.value.run == row.run && s.value.task == row.task && s.value.ok == r.ok
  {
    hide LogOk, JustStarted, HasPause, ValidResult, StoredResult, Unfinished, Concluded, PayloadOk;
    StoredResultKeeps(log, r, row, now);
    if HasPause(log) {
      RecoveredResultIsValid(log, r, row, now);
    } else {
      FreshResultIsValid(log, r, row, now);
    }
  }

  lemma StoredResultKeeps(log: seq<RunEvent>, r: TaskResult, row: Operation, now: Time)
    ensures var s := StoredResult(log, r, row, now);
            s.Some? ==> s.value.run == r.run && s.value.task == r.task && s.value.ok == r.ok
  {
  }

  lemma PauseIsRecordedIff(t: Tables, o: Id, p: PausedOutcome, now: Time)
    requires Inv(t) && o in t.operations
    requires ValidPaused(p) && p.snapshot.run == t.operations[o].run && p.snapshot.task == t.operations[o].task
    ensures RecordPause(t, o, p, now).1.CompleteFailed? <==> !PauseFits(PausedWith(p), Log(t, t.operations[o].run))
  {
    hide Inv, RowOk, LogOk, PauseEvents, ValidPaused;
    InvAt(t, o);
    PauseAcceptedIff(Log(t, t.operations[o].run), p, t.operations[o], now);
  }

  ghost predicate MayCommit(t: Tables, o: Id, worker: Id, outcome: Outcome, control: Option<Id>, now: Time) {
    && o in t.operations
    && var row := t.operations[o];
       && row.state == Running && row.worker == Some(worker) && row.leaseExpiresAt.Some? && now <= row.leaseExpiresAt.value
       && IsOutcomeOf(outcome, row)
       && PauseFits(outcome, Log(t, row.run))
       && (control.Some? ==>
             && control.value in t.requests && t.requests[control.value].operation == o
             && t.requests[control.value].worker == Some(worker) && t.requests[control.value].state == RequestRunning)
  }

  /** The outcome meets its contract, and names the run and the task of the row if it names any. */
  ghost predicate IsOutcomeOf(outcome: Outcome, row: Operation) {
    match outcome
    case PausedWith(p) => ValidPaused(p) && p.snapshot.run == row.run && p.snapshot.task == row.task
    case ResultWith(r) => ValidResult(r) && r.run == row.run && r.task == row.task
    case Explicit(_, summary, _) => exists i :: 0 <= i < |summary| && !IsSpace(summary[i] as int)
  }

  /** In a reachable database, exactly when a completion commits; otherwise it changes nothing. */
  lemma CompletionCommitsIff(t: Tables, o: Id, worker: Id, outcome: Outcome, control: Option<Id>, now: Time)
    requires Inv(t)
    ensures var (u, answer) := Complete(t, o, worker, outcome, control, now);
            && (IsCommit(answer) <==> MayCommit(t, o, worker, outcome, control, now))
            && (!IsCommit(answer) ==> u == t)
            && (IsCommit(answer) ==> o in u.operations && u.operations[o].state == OutcomeState(outcome)
                                      && u.operations[o].worker.None? && u.operations[o].leaseExpiresAt.None?)
  {
    hide Inv, ValidPaused, ValidResult, PauseFits;
    if Decodes(outcome) && Completable(t, o, worker, outcome, now) {
      RecordSucceedsIff(t, o, outcome, now);
      if PauseFits(outcome, Log(t, t.operations[o].run)) {
        RecordEffect(t, o, outcome, now);
      }
    }
    hide Record, Completable, Decodes;
  }

  lemma RecordSucceedsIff(t: Tables, o: Id, outcome: Outcome, now: Time)
    requires Inv(t) && o in t.operations && t.operations[o].state == Running
    requires Decodes(outcome) && OutcomeFits(outcome, t.operations[o])
    ensures Record(t, o, outcome, now).1.CompleteFailed? <==> !PauseFits(outcome, Log(t, t.operations[o].run))
    ensures Record(t, o, outcome, now).1.CompleteFailed? || IsCommit(Record(t, o, outcome, now).1)
  {
    hide Inv, ValidPaused, ValidResult, Log;
    match outcome
    case PausedWith(p) => PauseIsRecordedIff(t, o, p, now);
    case ResultWith(r) => ResultIsRecorded(t, o, r, now);
    case Explicit(_, _, _) =>
  }

  lemma RecordEffect(t: Tables, o: Id, outcome: Outcome, now: Time)
    requires o in t.operations && !Record(t, o, outcome, now).1.CompleteFailed?
    ensures IsCommit(Record(t, o, outcome, now).1)
    ensures var u := Record(t, o, outcome, now).0;
            && o in u.operations && u.operations == t.operations[o := u.operations[o]]
            && u.operations[o].state == OutcomeState(outcome)
            && u.operations[o].worker.None? && u.operations[o].leaseExpiresAt.None?
            && u.requests == t.requests
  {
    AppendKeepsTheRest();
    hide ValidPaused, ValidResult, StoredResult, StoredPause, PauseEvents, ResultEvents, Append, Log, ToTaskSnapshot;
  }

  /** What completion does to the operation rows, in any database. */
  lemma CompleteEffect(t: Tables, o: Id, worker: Id, outcome: Outcome, control: Option<Id>, now: Time)
    ensures var (u, r) := Complete(t, o, worker, outcome, control, now);
            if IsCommit(r) then
              && Completable(t, o, worker, outcome, now)
              && o in u.operations && u.operations == t.operations[o := u.operations[o]]
              && u.operations[o].state == OutcomeState(outcome)
            else u == t
  {
    if o in t.operations && !Record(t, o, outcome, now).1.CompleteFailed? {
      RecordEffect(t, o, outcome, now);
    }
    hide Record, Decodes, OutcomeFits, Completable, OutcomeState;
  }
}
