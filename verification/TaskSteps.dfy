/** Every transaction keeps the invariant, and lets the tables evolve. */
module TaskSteps {
  import opened Wrappers
  import opened TaskTypes
  import opened TaskTransactions
  import opened TaskLogs
  import opened TaskInvariants
  import CanonicalJson

  // ---------------------------------------------------------------- submission

  /** A run added for another operation leaves the attempts of `p` alone. */
  lemma AttemptsAfterNewRun(t: Tables, u: Tables, p: Id, r: Id, run: AgentRun)
    requires p in t.operations && p in u.operations && u.operations[p].run == t.operations[p].run
    requires AttemptsOk(t, p)
    requires r !in t.runs && u.runs == t.runs[r := run] && run.operation != p
    ensures AttemptsOk(u, p)
  {
    var k := t.runs[t.operations[p].run].attempt;
    forall a | 1 <= a <= k ensures HasAttempt(u, p, a) {
      assert HasAttempt(t, p, a);
      var s :| s in t.runs && t.runs[s].operation == p && t.runs[s].attempt == a;
      assert s in u.runs && u.runs[s] == t.runs[s];
    }
  }

  lemma AcceptKeepsOutbox(t: Tables, u: Tables, o: Id, m: Id, row: Operation, message: OutboxMessage)
    requires OutboxOk(t) && o !in t.operations && m !in t.outbox && message.operation == o
    requires u.operations == t.operations[o := row] && u.outbox == t.outbox[m := message]
    ensures OutboxOk(u)
  {
    forall p | p in u.operations ensures HasMessage(u, p) {
      if p == o {
        assert u.outbox[m].operation == o;
      } else {
        assert HasMessage(t, p);
        var n :| n in t.outbox && t.outbox[n].operation == p;
        assert u.outbox[n].operation == p;
      }
    }
  }

  lemma AcceptKeepsSubmissions(t: Tables, u: Tables, o: Id, row: Operation, submission: Submission)
    requires SubmissionsOk(t) && o !in t.operations && row.execution !in t.submissions
    requires submission.fingerprint == CanonicalJson.Canonicalize(submission.command.body)
    requires forall p :: p in t.operations ==> t.operations[p].execution in t.submissions
    requires u.operations == t.operations[o := row] && u.submissions == t.submissions[row.execution := submission]
    ensures SubmissionsOk(u)
  {
    forall e | e in u.submissions ensures HasOperation(u, e) {
      if e == row.execution {
        assert u.operations[o].execution == e;
      } else {
        assert HasOperation(t, e);
        var p :| p in t.operations && t.operations[p].execution == e;
        assert u.operations[p].execution == e;
      }
    }
  }

  lemma AcceptKeepsInv(t: Tables, command: Command, owner: Id, ids: SubmitIds, now: Time)
    requires Inv(t)
    requires command.execution !in t.submissions && ids.operation !in t.operations
    requires ids.run !in t.runs && ids.message !in t.outbox
    ensures Advances(t, Accept(t, command, owner, ids, now))
  {
    hide OperationOk, RunOk, RequestOk, OutboxOk, SubmissionsOk, HasMessage, RowOk, Evolves, Accept, LogOk;
    var u := Accept(t, command, owner, ids, now);
    AcceptEffect(t, command, owner, ids, now);
    var row := u.operations[ids.operation];
    AcceptKeepsOutbox(t, u, ids.operation, ids.message, row, u.outbox[ids.message]);
    ExecutionsSubmitted(t);
    AcceptKeepsSubmissions(t, u, ids.operation, row, u.submissions[command.execution]);
    forall p | p in u.operations ensures OperationOk(u, p) {
      if p == ids.operation {
        NewOperationOk(t, u, p, ids.run);
      } else {
        OldOperationOk(t, u, p, ids.run);
      }
    }
    forall r | r in u.runs ensures RunOk(u, r) {
      OneRunAdded(t, u, ids.run, r);
    }
    forall q | q in u.requests ensures RequestOk(u, q) {
      RequestAfterNewRun(t, u, q, ids.run);
    }
    NewRunEvolves(t, u, ids.run);
  }

  lemma AcceptEffect(t: Tables, command: Command, owner: Id, ids: SubmitIds, now: Time)
    requires ids.run !in t.events
    ensures var u := Accept(t, command, owner, ids, now);
            && ids.operation in u.operations && u.operations == t.operations[ids.operation := u.operations[ids.operation]]
            && ids.run in u.runs && u.runs == t.runs[ids.run := AgentRun(ids.operation, 1, now)]
            && ids.run in u.events && u.events == t.events[ids.run := u.events[ids.run]]
            && LogOk(Log(u, ids.run), ids.run, command.task)
            && ids.message in u.outbox && u.outbox == t.outbox[ids.message := u.outbox[ids.message]]
            && u.outbox[ids.message].operation == ids.operation
            && command.execution in u.submissions
            && u.submissions == t.submissions[command.execution := u.submissions[command.execution]]
            && u.submissions[command.execution].command == command
            && u.submissions[command.execution].fingerprint == CanonicalJson.Canonicalize(command.body)
            && u.requests == t.requests && u.controllers == t.controllers
            && var row := u.operations[ids.operation];
               row.run == ids.run && row.execution == command.execution && row.task == command.task
               && row.state == Accepted && RowOk(row, Log(u, ids.run))
  {
  }

  lemma ExecutionsSubmitted(t: Tables)
    requires OperationsOk(t)
    ensures forall p :: p in t.operations ==> t.operations[p].execution in t.submissions
  {
    hide AttemptsOk, RowOk;
    forall p | p in t.operations ensures t.operations[p].execution in t.submissions {
      assert OperationOk(t, p);
    }
  }

  /** Runs after one was added with a log of its own; operations keep their tasks. */
  lemma OneRunAdded(t: Tables, u: Tables, run: Id, r: Id)
    requires RunsOk(t) && r in u.runs && run !in t.runs && run in u.runs && u.runs == t.runs[run := u.runs[run]]
    requires forall p :: p in t.operations ==> p in u.operations && u.operations[p].task == t.operations[p].task
    requires run in u.events && u.events == t.events[run := u.events[run]]
    requires u.runs[run].operation in u.operations
    requires LogOk(u.events[run], run, u.operations[u.runs[run].operation].task)
    ensures RunOk(u, r)
  {
    hide LogOk;
    if r != run {
      assert RunOk(t, r);
    }
  }

  lemma RequestAfterNewRun(t: Tables, u: Tables, q: Id, run: Id)
    requires RequestsOk(t) && u.requests == t.requests && q in u.requests
    requires run !in t.runs && run in u.runs && u.runs == t.runs[run := u.runs[run]]
    requires forall p :: p in t.operations ==> p in u.operations
    ensures RequestOk(u, q)
  {
    assert RequestOk(t, q);
  }

  lemma NoRunYet(t: Tables, o: Id)
    requires RunsOk(t) && o !in t.operations
    ensures forall r :: r in t.runs ==> t.runs[r].operation != o
  {
    hide LogOk;
    forall r | r in t.runs ensures t.runs[r].operation != o {
      assert RunOk(t, r);
    }
  }

  lemma NewOperationOk(t: Tables, u: Tables, o: Id, run: Id)
    requires RunsOk(t) && o !in t.operations && run !in t.runs
    requires o in u.operations && u.operations[o].run == run && u.operations[o].execution in u.submissions
    requires run in u.runs && u.runs == t.runs[run := AgentRun(o, 1, u.runs[run].createdAt)]
    requires u.operations[o].state == Accepted && RowOk(u.operations[o], Log(u, run))
    ensures OperationOk(u, o)
  {
    hide RunsOk, RowOk, LogOk;
    NoRunYet(t, o);
    assert u.runs[run].operation == o && u.runs[run].attempt == 1;
    assert HasAttempt(u, o, 1);
  }

  lemma OldOperationOk(t: Tables, u: Tables, p: Id, run: Id)
    requires OperationsOk(t) && p in t.operations && p in u.operations && u.operations[p] == t.operations[p]
    requires run !in t.runs && run in u.runs && u.runs == t.runs[run := u.runs[run]] && u.runs[run].operation != p
    requires forall r :: r != run ==> Log(u, r) == Log(t, r)
    requires forall e :: e in t.submissions ==> e in u.submissions
    requires CancelledStay(t, u)
    ensures OperationOk(u, p)
  {
    hide RowOk;
    assert OperationOk(t, p);
    hide OperationsOk, AttemptsOk;
    AttemptsAfterNewRun(t, u, p, run, u.runs[run]);
  }

  /** A run added for a new operation, or for one that has not ended and moves to it. */
  lemma NewRunEvolves(t: Tables, u: Tables, run: Id)
    requires RunsOk(t) && run !in t.runs && run in u.runs && u.runs == t.runs[run := u.runs[run]]
    requires forall o :: o in t.operations ==> RowEvolves(t, u, o)
    requires run in u.events && u.events == t.events[run := u.events[run]]
    requires forall e :: e in t.submissions ==> e in u.submissions && u.submissions[e] == t.submissions[e]
    requires u.controllers == t.controllers
    ensures Evolves(t, u)
  {
    hide RowEvolves, LogOk;
    forall r | r in t.runs ensures RunEvolves(t, u, r) {
      assert Log(u, r) == Log(t, r);
    }
  }

  lemma SubmitKeepsInv(t: Tables, command: Command, owner: Id, existing: Option<Id>, ids: SubmitIds, now: Time)
    requires Inv(t) && ExistingFor(t, command.execution, existing)
    ensures Advances(t, Submit(t, command, owner, existing, ids, now).0)
  {
    hide Inv, Evolves, Accept;
    AdvancesSelf(t);
    if existing.None? && command.execution !in t.submissions && ids.operation !in t.operations
       && ids.run !in t.runs && ids.message !in t.outbox
    {
      AcceptKeepsInv(t, command, owner, ids, now);
    }
  }

  // ---------------------------------------------------------------- claims

  lemma AppendRewrites(t: Tables, u: Tables, o: Id, row: Operation, events: seq<RunEvent>)
    requires Inv(t) && o in t.operations
    requires row.run == t.operations[o].run && row.task == t.operations[o].task && row.execution == t.operations[o].execution
    requires row.createdAt == t.operations[o].createdAt
    requires u == Append(WithRow(t, o, row), row.run, events)
    ensures Rewrites(t, u, o, row, events)
  {
    hide Inv, Evolves, CancelledStay, RequestsKeepIds, OutboxKeepsIds, Append, Log;
    AppendedRow(t, o, row, events);
    SidesUnchanged(t, u);
  }

  lemma AppendedRow(t: Tables, o: Id, row: Operation, events: seq<RunEvent>)
    ensures var u := Append(WithRow(t, o, row), row.run, events);
            && u.operations == t.operations[o := row]
            && u.events == (if events == [] then t.events else t.events[row.run := Log(t, row.run) + events])
            && u.runs == t.runs && u.submissions == t.submissions
            && u.controllers == t.controllers && u.requests == t.requests && u.outbox == t.outbox
  {
  }

  lemma SidesUnchanged(t: Tables, u: Tables)
    requires Inv(t) && u.controllers == t.controllers && u.requests == t.requests && u.outbox == t.outbox
    ensures CancelledStay(t, u) && RequestsKeepIds(t, u) && OutboxKeepsIds(t, u)
  {
    hide Inv, Evolves, RequestsKeepIds;
    RequestsKeepIdsUnchanged(t, u);
  }

  lemma ClaimKeepsInv(t: Tables, o: Id, worker: Id, lease: int, freshRun: Id, now: Time)
    requires Inv(t) && (o in t.operations ==> t.operations[o].execution in t.submissions)
    ensures Advances(t, ClaimNext(t, o, worker, lease, freshRun, now).0)
  {
    hide Inv, Evolves, StartAttempt, AnnounceRunning;
    AdvancesSelf(t);
    if o in t.operations && Claimable(t.operations[o], now) {
      if t.operations[o].state != FailedRetryable {
        FirstClaimKeepsInv(t, o, worker, lease, freshRun, now);
      } else if freshRun !in t.runs {
        RetryKeepsInv(t, o, worker, lease, freshRun, now);
      }
    }
  }

  lemma LogHasFirst(log: seq<RunEvent>, run: Id, task: Id)
    requires LogOk(log, run, task)
    ensures log != []
  {
  }

  lemma FirstClaimKeepsInv(t: Tables, o: Id, worker: Id, lease: int, freshRun: Id, now: Time)
    requires Inv(t) && (o in t.operations ==> t.operations[o].execution in t.submissions)
    requires o in t.operations && Claimable(t.operations[o], now) && t.operations[o].state != FailedRetryable
    ensures Advances(t, ClaimNext(t, o, worker, lease, freshRun, now).0)
  {
    hide Inv, Evolves, RowOk, Rewrites, LogOk;
    InvAt(t, o);
    LogHasFirst(Log(t, t.operations[o].run), t.operations[o].run, t.operations[o].task);
    var row := t.operations[o];
    var log := Log(t, row.run);
    var claimed := ClaimedRow(row, row.run, worker, lease, now);
    var events := if Last(log).taskState == Understanding then []
                  else [UnderstandingEvent(row, row.run, |log| + 1, now, "决策任务开始执行")];
    var u := Append(WithRow(t, o, claimed), row.run, events);
    assert u == ClaimNext(t, o, worker, lease, freshRun, now).0;
    AppendRewrites(t, u, o, claimed, events);
    ClaimedRowOk(row, claimed, log, events);
    RewriteKeepsInv(t, u, o, claimed, events);
  }

  lemma ClaimedRowOk(row: Operation, claimed: Operation, log: seq<RunEvent>, events: seq<RunEvent>)
    requires LogOk(log, row.run, row.task) && RowOk(row, log) && (row.state == Accepted || row.state == Running)
    requires claimed.state == Running && claimed.payload == row.payload && claimed.run == row.run && claimed.task == row.task
    requires claimed.worker.Some? && claimed.leaseExpiresAt.Some?
    requires |events| <= 1
    requires events == [] <==> Last(log).taskState == Understanding
    requires events != [] ==> events[0].taskState == Understanding && events[0].eventType == StateChanged
    ensures RowOk(claimed, log + events)
  {
    if events == [] {
      assert log + events == log;
    } else {
      assert events == [events[0]];
      UnfinishedGrows(log, events[0]);
      if HasPause(log) {
        PauseRemains(log, events);
      } else {
        assert log + events == [log[0], events[0]];
      }
    }
  }

  lemma AttemptsCurrent(t: Tables, o: Id)
    requires o in t.operations && AttemptsOk(t, o)
    ensures t.operations[o].run in t.runs
  {
  }

  /** `COALESCE(MAX(attempt), 0)` is the attempt of the current run. */
  lemma MaxAttemptIsCurrent(t: Tables, o: Id)
    requires o in t.operations && AttemptsOk(t, o)
    ensures MaxAttempt(Attempts(t, o)) == t.runs[t.operations[o].run].attempt
  {
    assert t.runs[t.operations[o].run].attempt in Attempts(t, o);
  }

  lemma RetryKeepsInv(t: Tables, o: Id, worker: Id, lease: int, freshRun: Id, now: Time)
    requires Inv(t) && (o in t.operations ==> t.operations[o].execution in t.submissions)
    requires o in t.operations && t.operations[o].state == FailedRetryable && freshRun !in t.runs
    ensures Advances(t, ClaimNext(t, o, worker, lease, freshRun, now).0)
  {
    hide OperationOk, RunOk, RequestOk, OutboxOk, SubmissionsOk, ClaimNext, LogOk, JustStarted, Evolves, MaxAttempt;
    var u := ClaimNext(t, o, worker, lease, freshRun, now).0;
    assert freshRun !in t.events;
    RetryEffect(t, o, worker, lease, freshRun, now);
    OutboxFrame(t, u);
    SubmissionsFrame(t, u);
    RetryKeepsOperations(t, o, worker, lease, freshRun, now);
    RetryKeepsRuns(t, o, worker, lease, freshRun, now);
    NewRunEvolves(t, u, freshRun);
  }

  lemma RetryKeepsRuns(t: Tables, o: Id, worker: Id, lease: int, freshRun: Id, now: Time)
    requires Inv(t) && o in t.operations && t.operations[o].execution in t.submissions
    requires t.operations[o].state == FailedRetryable && freshRun !in t.runs
    ensures var u := ClaimNext(t, o, worker, lease, freshRun, now).0;
            (forall r :: r in u.runs ==> RunOk(u, r)) && forall q :: q in u.requests ==> RequestOk(u, q)
  {
    hide OperationOk, RunOk, RequestOk, OutboxOk, SubmissionsOk, ClaimNext, LogOk, JustStarted, MaxAttempt;
    var u := ClaimNext(t, o, worker, lease, freshRun, now).0;
    assert freshRun !in t.events;
    RetryEffect(t, o, worker, lease, freshRun, now);
    forall r | r in u.runs ensures RunOk(u, r) {
      OneRunAdded(t, u, freshRun, r);
    }
    forall q | q in u.requests ensures RequestOk(u, q) {
      RequestAfterNewRun(t, u, q, freshRun);
    }
  }

  lemma RetryKeepsOperations(t: Tables, o: Id, worker: Id, lease: int, freshRun: Id, now: Time)
    requires Inv(t) && o in t.operations && t.operations[o].execution in t.submissions
    requires t.operations[o].state == FailedRetryable && freshRun !in t.runs
    ensures var u := ClaimNext(t, o, worker, lease, freshRun, now).0; forall p :: p in u.operations ==> OperationOk(u, p)
  {
    hide OperationOk, RunOk, RequestOk, OutboxOk, SubmissionsOk, ClaimNext, LogOk, JustStarted, MaxAttempt;
    var u := ClaimNext(t, o, worker, lease, freshRun, now).0;
    assert freshRun !in t.events;
    RetryEffect(t, o, worker, lease, freshRun, now);
    forall p | p in u.operations ensures OperationOk(u, p) {
      if p == o {
        RetriedOperationOk(t, u, o, freshRun);
      } else {
        OldOperationOk(t, u, p, freshRun);
      }
    }
  }

  lemma RetryEffect(t: Tables, o: Id, worker: Id, lease: int, freshRun: Id, now: Time)
    requires o in t.operations && t.operations[o].execution in t.submissions
    requires t.operations[o].state == FailedRetryable && freshRun !in t.runs && freshRun !in t.events
    ensures var u, row := ClaimNext(t, o, worker, lease, freshRun, now).0, t.operations[o];
            && u.operations == t.operations[o := ClaimedRow(row, freshRun, worker, lease, now)]
            && u.runs == t.runs[freshRun := AgentRun(o, MaxAttempt(Attempts(t, o)) + 1, now)]
            && u.events == t.events[freshRun := Log(u, freshRun)]
            && JustStarted(Log(u, freshRun)) && LogOk(Log(u, freshRun), freshRun, row.task)
            && u.submissions == t.submissions && u.requests == t.requests
            && u.controllers == t.controllers && u.outbox == t.outbox
  {
    hide ClaimNext, ClaimedRow, MaxAttempt, Attempts;
    RetryWrites(t, o, worker, lease, freshRun, now);
  }

  lemma RetryWrites(t: Tables, o: Id, worker: Id, lease: int, freshRun: Id, now: Time)
    requires o in t.operations && t.operations[o].execution in t.submissions
    requires t.operations[o].state == FailedRetryable && freshRun !in t.runs && freshRun !in t.events
    ensures var (u, row) := (ClaimNext(t, o, worker, lease, freshRun, now).0, t.operations[o]);
            u == t.(operations := t.operations[o := ClaimedRow(row, freshRun, worker, lease, now)],
                    runs := t.runs[freshRun := AgentRun(o, MaxAttempt(Attempts(t, o)) + 1, now)],
                    events := t.events[freshRun := [CreatedEvent(row.task, freshRun, now, "决策任务开始新的重试执行"),
                                                    UnderstandingEvent(row, freshRun, 2, now, "决策任务开始执行")]])
  {
    hide ClaimedRow, MaxAttempt, Attempts;
    var row := t.operations[o];
    var created := CreatedEvent(row.task, freshRun, now, "决策任务开始新的重试执行");
    var understanding := UnderstandingEvent(row, freshRun, 2, now, "决策任务开始执行");
    assert [] + [created] == [created] && [created] + [understanding] == [created, understanding];
    assert t.events[freshRun := [created]][freshRun := [created, understanding]] == t.events[freshRun := [created, understanding]];
  }

  /** A payload kept while a failed operation is retried. */
  lemma RetriedRowOk(row: Operation, log: seq<RunEvent>, claimed: Operation, started: seq<RunEvent>)
    requires RowOk(row, log) && row.state == FailedRetryable && JustStarted(started)
    requires claimed.state == Running && claimed.payload == row.payload
    requires claimed.worker.Some? && claimed.leaseExpiresAt.Some?
    ensures RowOk(claimed, started)
  {
    hide ValidPaused, ValidResult, HasPause;
  }

  lemma RetriedOperationOk(t: Tables, u: Tables, o: Id, freshRun: Id)
    requires OperationsOk(t) && o in t.operations && t.operations[o].state == FailedRetryable && freshRun !in t.runs
    requires o in u.operations && u.operations[o].run == freshRun && u.operations[o].state == Running
    requires u.operations[o].execution == t.operations[o].execution && u.operations[o].payload == t.operations[o].payload
    requires u.operations[o].worker.Some? && u.operations[o].leaseExpiresAt.Some?
    requires u.submissions == t.submissions && JustStarted(Log(u, freshRun))
    requires freshRun in u.runs && u.runs == t.runs[freshRun := u.runs[freshRun]]
    requires u.runs[freshRun].operation == o && u.runs[freshRun].attempt == MaxAttempt(Attempts(t, o)) + 1
    ensures OperationOk(u, o)
  {
    hide RowOk, JustStarted, AttemptsOk, MaxAttempt;
    assert OperationOk(t, o);
    hide OperationsOk;
    MaxAttemptIsCurrent(t, o);
    AttemptsCurrent(t, o);
    RetriedAttemptsOk(t, u, o, freshRun);
    RetriedRowOk(t.operations[o], Log(t, t.operations[o].run), u.operations[o], Log(u, freshRun));
  }

  lemma RetriedAttemptsOk(t: Tables, u: Tables, o: Id, freshRun: Id)
    requires o in t.operations && AttemptsOk(t, o) && freshRun !in t.runs
    requires o in u.operations && u.operations[o].run == freshRun
    requires freshRun in u.runs && u.runs == t.runs[freshRun := u.runs[freshRun]]
    requires u.runs[freshRun].operation == o && u.runs[freshRun].attempt == t.runs[t.operations[o].run].attempt + 1
    ensures AttemptsOk(u, o)
  {
    var k := u.runs[freshRun].attempt;
    forall a | 1 <= a <= k ensures HasAttempt(u, o, a) {
      if a == k {
        assert u.runs[freshRun].attempt == a;
      } else {
        assert HasAttempt(t, o, a);
        var s :| s in t.runs && t.runs[s].operation == o && t.runs[s].attempt == a;
        assert s in u.runs && u.runs[s] == t.runs[s];
      }
    }
  }

  // ---------------------------------------------------------------- completion

  /** An append to a log with a pause still has the pause. */
  lemma PauseRemains(log: seq<RunEvent>, events: seq<RunEvent>)
    requires HasPause(log)
    ensures HasPause(log + events)
  {
    var i :| 0 <= i < |log| && log[i].taskState.TaskPaused?;
    assert (log + events)[i].taskState.TaskPaused?;
  }

  /** The row of a running operation with an outcome that names its current run. */
  lemma SameContinuation(log: seq<RunEvent>, events: seq<RunEvent>, row: Operation, released: Operation)
    requires Continues(log, events, row) && released.run == row.run && released.task == row.task
    ensures Continues(log, events, released)
  {
  }

  /** A release of `o` whose row fits its log keeps the invariant. */
  lemma ReleaseKeepsInv(t: Tables, u: Tables, o: Id, state: OperationState, payload: Payload, at: Time, events: seq<RunEvent>)
    requires Inv(t) && o in t.operations
    requires u == Append(WithRow(t, o, ReleasedRow(t.operations[o], state, payload, at)), t.operations[o].run, events)
    requires Continues(Log(t, t.operations[o].run), events, t.operations[o])
    requires RowOk(ReleasedRow(t.operations[o], state, payload, at), Log(t, t.operations[o].run) + events)
    requires state != Cancelled && !Finished(t.operations[o].state)
    ensures Advances(t, u)
  {
    hide Inv, Evolves, Rewrites, Continues, RowOk;
    var row := t.operations[o];
    var released := ReleasedRow(row, state, payload, at);
    AppendRewrites(t, u, o, released, events);
    SameContinuation(Log(t, row.run), events, row, released);
    RewriteKeepsInv(t, u, o, released, events);
  }

  lemma PauseKeepsInv(t: Tables, o: Id, p: PausedOutcome, now: Time)
    requires Inv(t) && o in t.operations && t.operations[o].state == Running
    requires OutcomeFits(PausedWith(p), t.operations[o]) && !RecordPause(t, o, p, now).1.CompleteFailed?
    ensures Advances(t, RecordPause(t, o, p, now).0)
  {
    hide Inv, Evolves, PauseEvents, Continues, HasPause, Unfinished;
    var row := t.operations[o];
    var log := Log(t, row.run);
    var stored := StoredPause(log, p, row, now);
    PauseLeavesPause(log, p, row, now);
    PausedIsUnfinished(stored.runEvents);
    ReleaseKeepsInv(t, RecordPause(t, o, p, now).0, o, Paused(p.kind), Stored(PausedWith(stored)),
                    Last(stored.runEvents).occurredAt, PauseEvents(log, p, row, now));
  }

  lemma StoredResultKeepsOk(log: seq<RunEvent>, r: TaskResult, row: Operation, now: Time)
    ensures StoredResult(log, r, row, now).Some? ==> StoredResult(log, r, row, now).value.ok == r.ok
  {
  }

  lemma ResultKeepsInv(t: Tables, o: Id, r: TaskResult, now: Time)
    requires Inv(t) && o in t.operations && t.operations[o].state == Running
    requires ValidResult(r) && OutcomeFits(ResultWith(r), t.operations[o])
    requires !RecordResult(t, o, r, now).1.CompleteFailed?
    ensures Advances(t, RecordResult(t, o, r, now).0)
  {
    hide Inv, Evolves, ResultEvents, Continues, ValidResult, LogOk, HasPause, JustStarted, StoredResult;
    hide ToTaskSnapshot, Unfinished, Concluded;
    var row := t.operations[o];
    var log := Log(t, row.run);
    InvAt(t, o);
    StoredResultKeepsOk(log, r, row, now);
    if r.ok {
      ResultConcludes(log, r, row, now);
    }
    var stored := StoredResult(log, r, row, now).value;
    ReleaseKeepsInv(t, RecordResult(t, o, r, now).0, o, OutcomeState(ResultWith(r)), Stored(ResultWith(stored)),
                    stored.updatedAt, ResultEvents(log, r.runEvents, row, now));
  }

  lemma ExplicitKeepsInv(t: Tables, o: Id, outcome: Outcome, now: Time)
    requires Inv(t) && o in t.operations && t.operations[o].state == Running && outcome.Explicit?
    ensures Advances(t, RecordExplicit(t, o, outcome, now).0)
  {
    hide Inv, Evolves, HasPause, ToTaskSnapshot;
    var row := t.operations[o];
    ReleaseKeepsInv(t, RecordExplicit(t, o, outcome, now).0, o, OutcomeState(outcome), Stored(outcome), now,
                    [FailureEvent(row, OutcomeState(outcome), |Log(t, row.run)| + 1, now)]);
  }

  lemma RecordKeepsInv(t: Tables, o: Id, outcome: Outcome, now: Time)
    requires Inv(t) && o in t.operations && t.operations[o].state == Running
    requires Decodes(outcome) && OutcomeFits(outcome, t.operations[o])
    requires !Record(t, o, outcome, now).1.CompleteFailed?
    ensures Advances(t, Record(t, o, outcome, now).0)
  {
    hide Inv, Evolves, RecordPause, RecordResult, RecordExplicit, OutcomeFits, ValidPaused, ValidResult;
    match outcome
    case PausedWith(p) => PauseKeepsInv(t, o, p, now);
    case ResultWith(r) => ResultKeepsInv(t, o, r, now);
    case Explicit(_, _, _) => ExplicitKeepsInv(t, o, outcome, now);
  }

  lemma CompleteKeepsInv(t: Tables, o: Id, worker: Id, outcome: Outcome, control: Option<Id>, now: Time)
    requires Inv(t)
    ensures Advances(t, Complete(t, o, worker, outcome, control, now).0)
  {
    hide Inv, Evolves, Record;
    AdvancesSelf(t);
    if Decodes(outcome) && Completable(t, o, worker, outcome, now) {
      var (recorded, answer) := Record(t, o, outcome, now);
      if !answer.CompleteFailed? {
        RecordKeepsInv(t, o, outcome, now);
        if control.Some? && Closable(recorded, control.value, o, worker) {
          var closed := Close(recorded, control.value, outcome, now);
          RequestUpdateKeepsInv(recorded, closed, control.value);
          AdvancesTransitive(t, recorded, closed);
        }
      }
    }
  }

  /** A request row rewritten for the same operation and run. */
  lemma RequestUpdateKeepsInv(t: Tables, u: Tables, q: Id)
    requires Inv(t) && q in t.requests && q in u.requests
    requires u == t.(requests := t.requests[q := u.requests[q]])
    requires u.requests[q].operation == t.requests[q].operation && u.requests[q].run == t.requests[q].run
    ensures Advances(t, u)
  {
    hide Inv, Evolves, RequestsKeepIds;
    RequestRunBelongs(t, q);
    RequestsKeepIdsAfterUpdate(t, u, q);
    SideStepKeepsInv(t, u);
  }

  lemma RequestRunBelongs(t: Tables, q: Id)
    requires Inv(t) && q in t.requests
    ensures RequestOk(t, q)
  {
    hide OperationsOk, RunsOk, OutboxOk, SubmissionsOk;
  }

  // ---------------------------------------------------------------- control requests

  /** A request added for the current run of `o`. */
  lemma NewRequestKeepsInv(t: Tables, u: Tables, q: Id, o: Id)
    requires Inv(t) && o in t.operations && q in u.requests && u == t.(requests := t.requests[q := u.requests[q]])
    requires u.requests[q].operation == o && u.requests[q].run == t.operations[o].run
    ensures Advances(t, u)
  {
    hide Inv, Evolves, RequestsKeepIds, RowOk, LogOk;
    InvAt(t, o);
    RequestsKeepIdsAfterUpdate(t, u, q);
    SideStepKeepsInv(t, u);
  }

  lemma SelectedExists(t: Tables, task: Id, owner: Id, selected: Option<Id>)
    requires Newest(t, task, owner, selected) && selected.Some?
    ensures selected.value in t.operations && t.operations[selected.value].task == task
  {
  }

  lemma ResumeRequestKeepsInv(t: Tables, input: ResumeInput, selected: Option<Id>, now: Time)
    requires Inv(t) && Newest(t, input.task, input.owner, selected)
    ensures Advances(t, RequestResume(t, input, selected, now).0)
  {
    hide Inv, Evolves, Newest, ToTaskSnapshot;
    AdvancesSelf(t);
    var u := RequestResume(t, input, selected, now).0;
    if u != t {
      SelectedExists(t, input.task, input.owner, selected);
      NewRequestKeepsInv(t, u, input.request, selected.value);
    }
  }

  lemma CancelKeepsInv(t: Tables, input: CancelInput, selected: Option<Id>, now: Time)
    requires Inv(t) && Newest(t, input.task, input.owner, selected)
    ensures Advances(t, RequestCancel(t, input, selected, now).0)
  {
    hide Inv, Evolves, Newest, CancelOperation;
    AdvancesSelf(t);
    var (u, answer) := RequestCancel(t, input, selected, now);
    if u != t {
      SelectedExists(t, input.task, input.owner, selected);
      CancelOperationKeepsInv(t, selected.value, input, answer.value.value, now);
    }
  }

  lemma CancelEffect(t: Tables, o: Id, input: CancelInput, request: ControlRequest, now: Time)
    requires o in t.operations
    ensures var u, row := CancelOperation(t, o, input, request, now), t.operations[o];
            && u.operations == t.operations[o := ReleasedRow(row, Cancelled, CancelMark, now)]
            && u.events == t.events[row.run := Log(t, row.run) + [CancelEvent(row, |Log(t, row.run)| + 1, now)]]
            && u.runs == t.runs && u.submissions == t.submissions && u.outbox == t.outbox
            && u.requests == t.requests[input.request := request]
            && row.run in u.controllers && u.controllers == t.controllers[row.run := u.controllers[row.run]]
            && u.controllers[row.run].state == ControllerCancelled
  {
  }

  lemma CancelOperationKeepsInv(t: Tables, o: Id, input: CancelInput, request: ControlRequest, now: Time)
    requires Inv(t) && o in t.operations && !Uncancellable(t.operations[o].state)
    requires request.operation == o && request.run == t.operations[o].run
    ensures Advances(t, CancelOperation(t, o, input, request, now))
  {
    hide Inv, Evolves, LogOk, RequestsKeepIds, CancelOperation;
    var row, u := t.operations[o], CancelOperation(t, o, input, request, now);
    var event := CancelEvent(row, |Log(t, row.run)| + 1, now);
    InvAt(t, o);
    CancelEffect(t, o, input, request, now);
    RequestsKeepIdsAfterUpdate(t, u, input.request);
    assert Last(Log(t, row.run) + [event]) == event;
    RewriteKeepsInv(t, u, o, ReleasedRow(row, Cancelled, CancelMark, now), [event]);
  }

  lemma ControlClaimKeepsInv(t: Tables, q: Id, worker: Id, lease: int, now: Time)
    requires Inv(t) && ControlSelectable(t, q, now)
    ensures Advances(t, ClaimControl(t, q, worker, lease, now).0)
  {
    hide Inv, Evolves, LogOk, RowOk, ReceiptsOf;
    var request := t.requests[q];
    var o := request.operation;
    var row := t.operations[o];
    InvAt(t, o);
    RowOfMatch(request, q, row, Log(t, row.run));
    if RequestMatches(request, q, row) && request.action.snapshotId in t.facts {
      var snapshot := t.facts[request.action.snapshotId];
      var permission := RecoveryPermission(snapshot, ReceiptsOf(t, request.action.snapshotId));
      if permission == ResumeAllowed {
        ResumeKeepsInv(t, q, worker, lease, now);
      } else {
        var failed := FailRequest(t, q, ResumeDenied, now);
        RequestUpdateKeepsInv(t, failed, q);
        if permission == ManualVerification {
          var event := ManualVerificationEvent(request, snapshot.taskState, |Log(t, request.run)| + 1, now);
          ManualEventKeepsInv(failed, o, event);
          AdvancesTransitive(t, failed, Append(failed, event.run, [event]));
        }
      }
    } else {
      var failed := ClaimControl(t, q, worker, lease, now).0;
      RequestUpdateKeepsInv(t, failed, q);
    }
  }

  /** A request that matches its operation's payload is for the operation's current run. */
  lemma RowOfMatch(request: ControlRequest, q: Id, row: Operation, log: seq<RunEvent>)
    requires RowOk(row, log)
    ensures RequestMatches(request, q, row) ==>
              request.run == row.run && request.task == row.task && (row.state == Running || row.state.Paused?)
  {
  }

  lemma ManualEventKeepsInv(t: Tables, o: Id, event: RunEvent)
    requires Inv(t) && o in t.operations && (t.operations[o].state == Running || t.operations[o].state.Paused?)
    requires event.run == t.operations[o].run && event.task == t.operations[o].task && event.taskState.TaskPaused?
    requires event.sequence == |Log(t, event.run)| + 1
    ensures Advances(t, Append(t, event.run, [event]))
  {
    hide Inv, Evolves, Rewrites, LogOk;
    InvAt(t, o);
    var row := t.operations[o];
    var log := Log(t, row.run);
    var u := Append(t, row.run, [event]);
    assert t.operations[o := row] == t.operations;
    assert (log + [event])[|log|].taskState.TaskPaused?;
    PausedIsUnfinished(log + [event]);
    AppendRewrites(t, u, o, row, [event]);
    RewriteKeepsInv(t, u, o, row, [event]);
  }

  lemma ResumeKeepsInv(t: Tables, q: Id, worker: Id, lease: int, now: Time)
    requires Inv(t) && ControlSelectable(t, q, now)
    requires ClaimControl(t, q, worker, lease, now).1.ControlClaimed?
    ensures Advances(t, ClaimControl(t, q, worker, lease, now).0)
  {
    hide Inv, Evolves, Rewrites, LogOk, RowOk, ReceiptsOf, RecoveryPermission, WithRow, Append;
    var request := t.requests[q];
    var o := request.operation;
    InvAt(t, o);
    var row := t.operations[o];
    var log := Log(t, row.run);
    RowOfMatch(request, q, row, log);
    var expires := Some(now + lease);
    var claimed := row.(state := Running, worker := Some(worker), leaseExpiresAt := expires, updatedAt := now);
    var events := if request.state == RequestRunning then [] else [ResumeEvent(request, |log| + 1, now)];
    var held := t.(requests := t.requests[q :=
      request.(state := RequestRunning, worker := Some(worker), leaseExpiresAt := expires, updatedAt := now)]);
    var u := Append(WithRow(held, o, claimed), row.run, events);
    AppendNothing(WithRow(held, o, claimed), row.run);
    hide RequestMatches;
    RequestUpdateKeepsInv(t, held, q);
    AppendRewrites(held, u, o, claimed, events);
    ResumedRowOk(row, claimed, log, events);
    RewriteKeepsInv(held, u, o, claimed, events);
    AdvancesTransitive(t, held, u);
  }

  lemma AppendNothing(t: Tables, run: Id)
    ensures Append(t, run, []) == t
  {
  }

  /** A paused row that runs again, or a running one handed over. */
  lemma ResumedRowOk(row: Operation, claimed: Operation, log: seq<RunEvent>, events: seq<RunEvent>)
    requires RowOk(row, log) && (row.state == Running || row.state.Paused?)
    requires row.payload.Stored? && row.payload.outcome.PausedWith?
    requires claimed.state == Running && claimed.payload == row.payload && claimed.run == row.run && claimed.task == row.task
    requires claimed.worker.Some? && claimed.leaseExpiresAt.Some?
    requires |events| <= 1 && (events == [] ==> row.state == Running)
    requires events != [] ==> events[0].taskState == Understanding && row.state.Paused?
    ensures RowOk(claimed, log + events)
  {
    hide ValidPaused, HasPause, JustStarted, Unfinished;
    if events == [] {
      assert log + events == log;
    } else {
      assert events == [events[0]];
      UnfinishedGrows(log, events[0]);
      PauseRemains(log, events);
    }
  }

  // ---------------------------------------------------------------- controllers and the outbox

  lemma ControllersKeepInv(t: Tables, u: Tables)
    requires Inv(t) && CancelledStay(t, u)
    requires u.operations == t.operations && u.runs == t.runs && u.submissions == t.submissions && u.events == t.events
    requires u.requests == t.requests && u.outbox == t.outbox
    ensures Advances(t, u)
  {
    hide Inv, Evolves, RequestsKeepIds;
    RequestsKeepIdsUnchanged(t, u);
    SideStepKeepsInv(t, u);
  }

  lemma PublishKeepsInv(t: Tables, m: Id, delivered: bool, delays: Delays, now: Time)
    requires Inv(t) && m in t.outbox
    ensures Advances(t, Publish(t, m, delivered, delays, now))
  {
    hide Inv, Evolves, RequestsKeepIds;
    RequestsKeepIdsUnchanged(t, Publish(t, m, delivered, delays, now));
    SideStepKeepsInv(t, Publish(t, m, delivered, delays, now));
  }
}
