/**
 The persistent decision-task module as a store that runs one transaction at a time. Each method
 works as its transaction does, statement by statement, and rolls back by restoring the tables it
 began with; its postcondition is the transaction's effect as TaskTransactions defines it.
 */
module TaskStore {
  import opened Wrappers
  import opened TaskTypes
  import Tx = TaskTransactions

  class Store {
    var tables: Tables

    constructor ()
      ensures tables == EMPTY
    {
      tables := EMPTY;
    }

    method InsertRunEvent(e: RunEvent)
      modifies this
      ensures tables == Tx.Append(old(tables), e.run, [e])
    {
      tables := tables.(events := tables.events[e.run := Tx.Log(tables, e.run) + [e]]);
    }

    method InsertRunEvents(row: Operation, events: seq<RunEvent>)
      requires Tx.Continues(Tx.Log(tables, row.run), events, row)
      modifies this
      ensures tables == Tx.Append(old(tables), row.run, events)
    {
      ghost var log := Tx.Log(tables, row.run);
      for i := 0 to |events|
        invariant tables == Tx.Append(old(tables), row.run, events[..i])
        invariant Tx.Log(tables, row.run) == log + events[..i]
      {
        InsertRunEvent(events[i]);
        assert events[..i + 1] == events[..i] + [events[i]];
        assert log + events[..i + 1] == (log + events[..i]) + [events[i]];
      }
      assert events[..|events|] == events;
    }

    method UpdateOperation(operation: Id, row: Operation)
      modifies this
      ensures tables == Tx.WithRow(old(tables), operation, row)
    {
      tables := tables.(operations := tables.operations[operation := row]);
    }

    method UpdateRequest(request: Id, row: ControlRequest)
      modifies this
      ensures tables == old(tables).(requests := old(tables).requests[request := row])
    {
      tables := tables.(requests := tables.requests[request := row]);
    }

    method Submit(command: Command, owner: Id, existing: Option<Id>, ids: Tx.SubmitIds, now: Time)
      returns (r: Result<Tx.TaskSnapshot, Error>)
      requires Tx.ExistingFor(tables, command.execution, existing)
      modifies this
      ensures (tables, r) == Tx.Submit(old(tables), command, owner, existing, ids, now)
    {
      var fingerprint := Tx.CanonicalJson.Canonicalize(command.body);
      if existing.Some? {
        var submission := tables.submissions[command.execution];
        if submission.owner != owner || submission.fingerprint != fingerprint {
          return Err(IdempotencyConflict);
        }
        return Tx.ToTaskSnapshot(tables.operations[existing.value]);
      }
      var begun := tables;
      if command.execution in tables.submissions {
        return Err(PersistenceUnavailable);
      }
      tables := tables.(submissions := tables.submissions[command.execution :=
        Submission(owner, fingerprint, command.task, command)]);
      if ids.operation in tables.operations {
        tables := begun;
        return Err(PersistenceUnavailable);
      }
      UpdateOperation(ids.operation,
        Operation(ids.run, command.execution, command.task, Accepted, None, None, NoPayload, now, now));
      if ids.run in tables.runs {
        tables := begun;
        return Err(PersistenceUnavailable);
      }
      tables := tables.(runs := tables.runs[ids.run := AgentRun(ids.operation, 1, now)]);
      if ids.message in tables.outbox {
        tables := begun;
        return Err(PersistenceUnavailable);
      }
      tables := tables.(outbox := tables.outbox[ids.message := OutboxMessage(ids.operation, 0, now, None, now)]);
      InsertRunEvent(Tx.CreatedEvent(command.task, ids.run, now, "决策任务已接受"));
      return Ok(Tx.TaskSnapshot(command.execution, command.task, ids.run, Accepted, false, None, now));
    }

    method ClaimNext(operation: Id, worker: Id, lease: int, freshRun: Id, now: Time) returns (r: Tx.ClaimResult)
      requires operation in tables.operations ==> tables.operations[operation].execution in tables.submissions
      modifies this
      ensures (tables, r) == Tx.ClaimNext(old(tables), operation, worker, lease, freshRun, now)
    {
      hide Tx.MaxAttempt, Tx.Attempts, Tx.Claimable, Tx.Finished;
      if operation !in tables.operations {
        return Tx.UnknownOperation;
      }
      var row := tables.operations[operation];
      var submission := tables.submissions[row.execution];
      if !Tx.Claimable(row, now) {
        return if Tx.Finished(row.state) then Tx.AlreadyFinished else Tx.Deferred;
      }
      var run := row.run;
      if row.state == FailedRetryable {
        run := freshRun;
        if freshRun in tables.runs {
          return Tx.ClaimFailed(PersistenceUnavailable);
        }
        var attempt := Tx.MaxAttempt(Tx.Attempts(tables, operation)) + 1;
        tables := tables.(runs := tables.runs[run := AgentRun(operation, attempt, now)]);
        InsertRunEvent(Tx.CreatedEvent(row.task, run, now, "决策任务开始新的重试执行"));
      }
      UpdateOperation(operation, Tx.ClaimedRow(row, run, worker, lease, now));
      var log := Tx.Log(tables, run);
      if log == [] || Last(log).taskState != Understanding {
        InsertRunEvent(Tx.UnderstandingEvent(row, run, |log| + 1, now, "决策任务开始执行"));
      }
      return Tx.Claimed(operation, run, submission.owner, submission.command);
    }

    method Complete(operation: Id, worker: Id, outcome: Outcome, control: Option<Id>, now: Time)
      returns (r: Tx.CompleteResult)
      modifies this
      ensures (tables, r) == Tx.Complete(old(tables), operation, worker, outcome, control, now)
    {
      if !Tx.Decodes(outcome) {
        return Tx.CompleteFailed(PersistenceUnavailable);
      }
      if !Tx.Completable(tables, operation, worker, outcome, now) {
        return Tx.NotCompletable;
      }
      var begun := tables;
      r := RecordOutcome(operation, outcome, now);
      if r.CompleteFailed? {
        tables := begun;
        return;
      }
      if control.Some? {
        if !Tx.Closable(tables, control.value, operation, worker) {
          tables := begun;
          return Tx.NotCompletable;
        }
        var error := Tx.OutcomeControlError(outcome);
        var request := tables.requests[control.value];
        UpdateRequest(control.value,
          request.(state := if error.None? then RequestCompleted else RequestFailed(error.value),
                   worker := None, leaseExpiresAt := None, updatedAt := now));
      }
    }

    /** The part of completion that writes the operation and its log. */
    method RecordOutcome(operation: Id, outcome: Outcome, now: Time) returns (r: Tx.CompleteResult)
      requires operation in tables.operations
      modifies this
      ensures r == Tx.Record(old(tables), operation, outcome, now).1
      ensures !r.CompleteFailed? ==> tables == Tx.Record(old(tables), operation, outcome, now).0
    {
      ghost var begun := tables;
      var row := tables.operations[operation];
      var updated := Tx.ReleasedRow(row, Tx.OutcomeState(outcome), Stored(outcome), now);
      UpdateOperation(operation, updated);
      match outcome {
        case PausedWith(p) => r := PersistPausedRunEvents(operation, row, updated, p, now, begun);
        case ResultWith(result) => r := PersistResultRunEvents(operation, row, updated, result, now, begun);
        case Explicit(_, _, _) =>
          InsertRunEvent(Tx.FailureEvent(row, updated.state, |Tx.Log(tables, row.run)| + 1, now));
          r := Tx.Answer(Tx.ToTaskSnapshot(updated));
      }
    }

    /** `row` is the operation before the completing update, `updated` after it. */
    method PersistPausedRunEvents(operation: Id, row: Operation, updated: Operation, p: PausedOutcome, now: Time, ghost begun: Tables)
      returns (r: Tx.CompleteResult)
      requires operation in begun.operations && begun.operations[operation] == row
      requires tables == Tx.WithRow(begun, operation, updated)
      requires updated == Tx.ReleasedRow(row, Paused(p.kind), Stored(PausedWith(p)), now)
      modifies this
      ensures r == Tx.RecordPause(begun, operation, p, now).1
      ensures !r.CompleteFailed? ==> tables == Tx.RecordPause(begun, operation, p, now).0
    {
      hide Tx.PauseEvents, Tx.ToTaskSnapshot, Tx.Continues, Tx.Append, Tx.WithRow, Tx.Log;
      Tx.LastUpdateWins(begun, operation, updated, updated, row.run, []);
      var log := Tx.Log(tables, row.run);
      var newEvents := Tx.PauseEvents(log, p, row, now);
      InsertRunEvents(row, newEvents);
      var persisted := Tx.StoredPause(log, p, row, now);
      if !ValidPaused(persisted) {
        return Tx.CompleteFailed(PersistenceUnavailable);
      }
      var stored := updated.(payload := Stored(PausedWith(persisted)), updatedAt := Last(persisted.runEvents).occurredAt);
      UpdateOperation(operation, stored);
      Tx.LastUpdateWins(begun, operation, updated, stored, row.run, newEvents);
      r := Tx.Answer(Tx.ToTaskSnapshot(stored));
    }

    method PersistResultRunEvents(operation: Id, row: Operation, updated: Operation, result: TaskResult, now: Time, ghost begun: Tables)
      returns (r: Tx.CompleteResult)
      requires operation in begun.operations && begun.operations[operation] == row
      requires tables == Tx.WithRow(begun, operation, updated)
      requires updated == Tx.ReleasedRow(row, Tx.OutcomeState(ResultWith(result)), Stored(ResultWith(result)), now)
      modifies this
      ensures r == Tx.RecordResult(begun, operation, result, now).1
      ensures !r.CompleteFailed? ==> tables == Tx.RecordResult(begun, operation, result, now).0
    {
      hide Tx.ResultEvents, Tx.StoredResult, Tx.ToTaskSnapshot, Tx.Continues, Tx.Append, Tx.WithRow, Tx.Log, ValidResult;
      Tx.LastUpdateWins(begun, operation, updated, updated, row.run, []);
      var log := Tx.Log(tables, row.run);
      var stored := Tx.StoredResult(log, result, row, now);
      if stored.None? {
        return Tx.CompleteFailed(PersistenceUnavailable);
      }
      var newEvents := Tx.ResultEvents(log, result.runEvents, row, now);
      InsertRunEvents(row, newEvents);
      if !ValidResult(stored.value) || stored.value.run != row.run || stored.value.task != row.task {
        return Tx.CompleteFailed(PersistenceUnavailable);
      }
      var final := updated.(payload := Stored(ResultWith(stored.value)), updatedAt := stored.value.updatedAt);
      UpdateOperation(operation, final);
      Tx.LastUpdateWins(begun, operation, updated, final, row.run, newEvents);
      r := if updated.state == Completed then Tx.CommittedResult(stored.value) else Tx.Answer(Tx.ToTaskSnapshot(updated));
    }

    method RequestRuntimeResume(input: Tx.ResumeInput, selected: Option<Id>, now: Time)
      returns (r: Result<Option<ControlRequest>, Error>)
      requires Tx.Newest(tables, input.task, input.owner, selected)
      modifies this
      ensures (tables, r) == Tx.RequestResume(old(tables), input, selected, now)
    {
      if input.confirmationOperation != input.request || input.confirmationUser != input.owner {
        return Err(ControlRejected);
      }
      if selected.None? {
        return Ok(None);
      }
      var row := tables.operations[selected.value];
      var action := Resume(input.snapshotId, input.confirmationOperation, input.confirmationUser);
      if input.request in tables.requests {
        var stored := tables.requests[input.request];
        if !Tx.SameRequest(stored, selected.value, row, input.task, input.owner, action, input.correlation) {
          return Err(IdempotencyConflict);
        }
        return Ok(Some(stored));
      }
      match Tx.ToTaskSnapshot(row) {
        case Err(e) => return Err(e);
        case Ok(snapshot) =>
          if !row.state.Paused? || snapshot.runtimeSnapshotId != Some(input.snapshotId) {
            return Err(ControlRejected);
          }
      }
      if input.snapshotId !in tables.facts || row.run !in tables.runs {
        return Err(PersistenceUnavailable);
      }
      var request := ControlRequest(selected.value, input.task, row.run, input.owner, action, input.correlation,
                                    RequestAccepted, None, None, now, now);
      UpdateRequest(input.request, request);
      return Ok(Some(request));
    }

    method RequestRuntimeCancel(input: Tx.CancelInput, selected: Option<Id>, now: Time)
      returns (r: Result<Option<ControlRequest>, Error>)
      requires Tx.Newest(tables, input.task, input.owner, selected)
      modifies this
      ensures (tables, r) == Tx.RequestCancel(old(tables), input, selected, now)
    {
      if selected.None? {
        return Ok(None);
      }
      var row := tables.operations[selected.value];
      var action := Cancel(input.cancellationId);
      if input.request in tables.requests {
        var stored := tables.requests[input.request];
        if !Tx.SameRequest(stored, selected.value, row, input.task, input.owner, action, input.correlation) {
          return Err(IdempotencyConflict);
        }
        return Ok(Some(stored));
      }
      if Tx.Uncancellable(row.state) {
        return Err(CancelRejected);
      }
      if row.run !in tables.runs {
        return Err(PersistenceUnavailable);
      }
      var event := Tx.CancelEvent(row, |Tx.Log(tables, row.run)| + 1, now);
      var request := ControlRequest(selected.value, input.task, row.run, input.owner, action, input.correlation,
                                    RequestCompleted, None, None, now, now);
      UpdateRequest(input.request, request);
      if row.run in tables.controllers {
        UpdateController(row.run, tables.controllers[row.run].(
          state := ControllerCancelled, cancellationId := Some(input.cancellationId), events := [event],
          controllerId := None, leaseExpiresAt := None, updatedAt := now));
      } else {
        UpdateController(row.run, Controller(None, ControllerCancelled, [event], None, None, Some(input.cancellationId), now));
      }
      UpdateOperation(selected.value, Tx.ReleasedRow(row, Cancelled, CancelMark, now));
      InsertRunEvent(event);
      return Ok(Some(request));
    }

    method UpdateController(run: Id, c: Controller)
      modifies this
      ensures tables == Tx.WithController(old(tables), run, c)
    {
      tables := tables.(controllers := tables.controllers[run := c]);
    }

    method ClaimNextRuntimeControl(selected: Option<Id>, worker: Id, lease: int, now: Time) returns (r: Tx.ControlClaim)
      requires selected.Some? ==> Tx.ControlSelectable(tables, selected.value, now)
      modifies this
      ensures selected.None? ==> tables == old(tables) && r == Tx.ControlEmpty
      ensures selected.Some? ==> (tables, r) == Tx.ClaimControl(old(tables), selected.value, worker, lease, now)
    {
      if selected.None? {
        return Tx.ControlEmpty;
      }
      var request := selected.value;
      var q := tables.requests[request];
      var row := tables.operations[q.operation];
      var failed := q.(worker := None, leaseExpiresAt := None, updatedAt := now);
      if !Tx.RequestMatches(q, request, row) {
        UpdateRequest(request, failed.(state := RequestFailed(SnapshotInvalid)));
        return Tx.ControlEmpty;
      }
      if q.action.snapshotId !in tables.facts {
        UpdateRequest(request, failed.(state := RequestFailed(Unavailable)));
        return Tx.ControlEmpty;
      }
      var snapshot := tables.facts[q.action.snapshotId];
      var receipts := Tx.ReceiptsOf(tables, q.action.snapshotId);
      var permission := RecoveryPermission(snapshot, receipts);
      if permission != ResumeAllowed {
        UpdateRequest(request, failed.(state := RequestFailed(ResumeDenied)));
        if permission == ManualVerification {
          InsertRunEvent(Tx.ManualVerificationEvent(q, snapshot.taskState, |Tx.Log(tables, q.run)| + 1, now));
        }
        return Tx.ControlEmpty;
      }
      var expires := Some(now + lease);
      UpdateRequest(request, q.(state := RequestRunning, worker := Some(worker), leaseExpiresAt := expires, updatedAt := now));
      UpdateOperation(q.operation, row.(state := Running, worker := Some(worker), leaseExpiresAt := expires, updatedAt := now));
      if q.state != RequestRunning {
        InsertRunEvent(Tx.ResumeEvent(q, |Tx.Log(tables, q.run)| + 1, now));
      }
      return Tx.ControlClaimed(request, q.operation, q.run, q.owner, snapshot, receipts);
    }

    // -------------------------------------------------------------- the recovery store's transactions

    method SaveRecoveryFacts(snapshot: RuntimeSnapshot, receipts: seq<EffectReceipt>, objectsPresent: bool, now: Time)
      returns (r: Result<(), Error>)
      modifies this
      ensures (tables, r) == Tx.SaveFacts(old(tables), snapshot, receipts, objectsPresent, now)
    {
      if (exists x :: x in receipts && !BelongsTo(x, snapshot)) || !objectsPresent {
        return Err(PersistenceUnavailable);
      }
      var begun := tables;
      if snapshot.snapshotId !in tables.facts {
        tables := tables.(facts := tables.facts[snapshot.snapshotId := snapshot]);
      }
      if tables.facts[snapshot.snapshotId] != snapshot {
        tables := begun;
        return Err(PersistenceUnavailable);
      }
      assert tables.facts == begun.facts[snapshot.snapshotId := snapshot];
      InsertReceipts(snapshot.snapshotId, receipts);
      var stored := Tx.ReceiptsOf(tables, snapshot.snapshotId);
      if stored != Tx.ToSet(receipts) || |stored| != |receipts| || Tx.ControllerStateOf(snapshot.taskState).None? {
        tables := begun;
        return Err(PersistenceUnavailable);
      }
      if snapshot.run !in tables.controllers {
        UpdateController(snapshot.run, Controller(Some(snapshot.snapshotId),
          Tx.ControllerStateOf(snapshot.taskState).value, [], None, None, None, now));
      } else {
        var c := tables.controllers[snapshot.run];
        if c.state == ControllerRunning && c.snapshotId.None? {
          UpdateController(snapshot.run, c.(snapshotId := Some(snapshot.snapshotId), updatedAt := now));
        }
      }
      return Ok(());
    }

    method InsertReceipts(snapshotId: Id, receipts: seq<EffectReceipt>)
      modifies this
      ensures tables == old(tables).(receipts := Tx.AddReceipts(old(tables).receipts, snapshotId, receipts))
    {
      for i := 0 to |receipts|
        invariant tables == old(tables).(receipts := tables.receipts)
        invariant Tx.AddReceipts(tables.receipts, snapshotId, receipts[i..]) == Tx.AddReceipts(old(tables).receipts, snapshotId, receipts)
      {
        var receipt := receipts[i];
        assert receipts[i..][1..] == receipts[i + 1..];
        if receipt.receiptId !in tables.receipts {
          tables := tables.(receipts := tables.receipts[receipt.receiptId := StoredReceipt(snapshotId, receipt)]);
        }
      }
    }

    method RecordRuntimeRunning(run: Id, controllerId: Id, lease: int, now: Time) returns (r: Result<(), Error>)
      modifies this
      ensures (tables, r) == Tx.RecordRunning(old(tables), run, controllerId, lease, now)
    {
      var expires := Some(now + lease);
      if run !in tables.controllers {
        UpdateController(run, Controller(None, ControllerRunning, [], Some(controllerId), expires, None, now));
        return Ok(());
      }
      var c := tables.controllers[run];
      var expired := c.snapshotId.None? && c.leaseExpiresAt.Some? && c.leaseExpiresAt.value <= now;
      if c.state != ControllerRunning || (c.controllerId != Some(controllerId) && !expired) {
        return Err(PersistenceUnavailable);
      }
      UpdateController(run, c.(controllerId := Some(controllerId), leaseExpiresAt := expires, updatedAt := now));
      return Ok(());
    }

    method ClaimRuntimeResume(run: Id, snapshotId: Id, controllerId: Id, lease: int, now: Time) returns (r: Tx.ControllerResult)
      modifies this
      ensures (tables, r) == Tx.ResumeController(old(tables), run, snapshotId, controllerId, lease, now)
    {
      if run !in tables.controllers {
        return Tx.ControllerMissing;
      }
      var c := tables.controllers[run];
      if c.snapshotId != Some(snapshotId) {
        return Tx.Denied;
      }
      if c.state == ControllerRunning {
        if c.controllerId == Some(controllerId) {
          return Tx.Unchanged;
        }
        if c.leaseExpiresAt.Some? && c.leaseExpiresAt.value > now {
          return Tx.Busy;
        }
      } else if c.state == ControllerCompleted {
        return Tx.Unchanged;
      }
      if c.state != ControllerRunning && !c.state.ControllerPaused? {
        return Tx.Denied;
      }
      UpdateController(run, c.(state := ControllerRunning, events := [], controllerId := Some(controllerId),
                               leaseExpiresAt := Some(now + lease), updatedAt := now));
      return Tx.Acquired([]);
    }

    method CompleteRuntimeControl(run: Id, controllerId: Id, expected: Option<Id>, next: Option<Id>,
                                  state: ControllerState, events: seq<RunEvent>, now: Time)
      returns (r: Result<(), Error>)
      modifies this
      ensures (tables, r) == Tx.FinishController(old(tables), run, controllerId, expected, next, state, events, now)
    {
      if run !in tables.controllers {
        return Err(PersistenceUnavailable);
      }
      var c := tables.controllers[run];
      if c.snapshotId == expected && c.state == ControllerRunning && c.controllerId == Some(controllerId) {
        if next.Some? && next.value !in tables.facts {
          return Err(PersistenceUnavailable);
        }
        UpdateController(run, c.(snapshotId := next, state := state, events := events,
                                 controllerId := None, leaseExpiresAt := None, updatedAt := now));
        return Ok(());
      }
      return if c.snapshotId == next && c.state == state && c.events == events then Ok(()) else Err(PersistenceUnavailable);
    }

    method ClaimRuntimeCancel(run: Id, cancellationId: Id, events: seq<RunEvent>, now: Time) returns (r: Tx.ControllerResult)
      modifies this
      ensures (tables, r) == Tx.CancelRuntime(old(tables), run, cancellationId, events, now)
    {
      if run !in tables.controllers {
        return Tx.ControllerMissing;
      }
      var c := tables.controllers[run];
      if c.state == ControllerCancelled {
        return Tx.Unchanged;
      }
      if c.state == ControllerCompleted || c.state == ControllerFailed {
        return Tx.Denied;
      }
      UpdateController(run, c.(state := ControllerCancelled, cancellationId := Some(cancellationId), events := events,
                               controllerId := None, leaseExpiresAt := None, updatedAt := now));
      return Tx.Acquired(events);
    }

    // -------------------------------------------------------------- the outbox publisher

    /** `publishNext`: at most one attempt, on the row its query selected. */
    method PublishNext(selected: Option<Id>, delivered: bool, delays: Tx.Delays, now: Time) returns (attempted: nat, published: nat)
      requires selected.Some? ==> Tx.Publishable(tables, selected.value, now)
      modifies this
      ensures selected.None? ==> tables == old(tables) && attempted == 0 && published == 0
      ensures selected.Some? ==> tables == Tx.Publish(old(tables), selected.value, delivered, delays, now)
      ensures selected.Some? ==> attempted == 1 && published == if delivered then 1 else 0
    {
      if selected.None? {
        return 0, 0;
      }
      var m := tables.outbox[selected.value];
      if delivered {
        m := m.(publishedAt := Some(now), nextAttemptAt := now + delays.republish);
      } else {
        m := m.(attempts := m.attempts + 1, nextAttemptAt := now + delays.retry);
      }
      tables := tables.(outbox := tables.outbox[selected.value := m]);
      return 1, if delivered then 1 else 0;
    }
  }
}
