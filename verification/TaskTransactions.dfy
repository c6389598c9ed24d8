/** What each database transaction does to the tables, and what it returns. */
module TaskTransactions {
  import opened Wrappers
  import opened TaskTypes
  import CanonicalJson

  function Log(t: Tables, run: Id): seq<RunEvent> {
    if run in t.events then t.events[run] else []
  }

  function Append(t: Tables, run: Id, events: seq<RunEvent>): Tables {
    if events == [] then t else t.(events := t.events[run := Log(t, run) + events])
  }

  // ---------------------------------------------------------------- snapshots of an operation

  datatype TaskSnapshot = TaskSnapshot(
    execution: Id, task: Id, run: Id, state: OperationState, terminal: bool,
    runtimeSnapshotId: Option<Id>, updatedAt: Time)

  function ToTaskSnapshot(row: Operation): Result<TaskSnapshot, Error> {
    if row.state.Paused? then
      match row.payload
      case Stored(PausedWith(p)) =>
        if ValidPaused(p) && p.kind == row.state.kind && p.snapshot.task == row.task && p.snapshot.run == row.run then
          Ok(TaskSnapshot(row.execution, row.task, row.run, row.state, false, Some(p.snapshot.snapshotId), row.updatedAt))
        else Err(PersistenceUnavailable)
      case _ => Err(PersistenceUnavailable)
    else if row.state == Completed then Err(PersistenceUnavailable)
    else
      Ok(TaskSnapshot(row.execution, row.task, row.run, row.state,
                      row.state == FailedFinal || row.state == Cancelled, None, row.updatedAt))
  }

  datatype TaskView = SnapshotView(snapshot: TaskSnapshot) | ResultView(result: TaskResult)

  /** `get`, for the row its query selected. */
  function View(row: Operation): Result<TaskView, Error> {
    if row.state == Completed && row.payload != NoPayload then
      match row.payload
      case Stored(ResultWith(r)) =>
        if ValidResult(r) && r.run == row.run && r.task == row.task then Ok(ResultView(r))
        else Err(PersistenceUnavailable)
      case _ => Err(PersistenceUnavailable)
    else
      match ToTaskSnapshot(row)
      case Ok(s) => Ok(SnapshotView(s))
      case Err(e) => Err(e)
  }

  // ---------------------------------------------------------------- submission

  datatype SubmitIds = SubmitIds(operation: Id, run: Id, message: Id)

  function OperationOf(t: Tables, execution: Id): set<Id> {
    set o | o in t.operations && t.operations[o].execution == execution
  }

  function CreatedEvent(task: Id, run: Id, now: Time, summary: string): RunEvent {
    RunEvent(task, run, 1, now, StateChanged, Created, summary)
  }

  /** The tables after the five inserts of a first submission. */
  function Accept(t: Tables, command: Command, owner: Id, ids: SubmitIds, now: Time): Tables {
    t.(submissions := t.submissions[command.execution :=
         Submission(owner, CanonicalJson.Canonicalize(command.body), command.task, command)],
       operations := t.operations[ids.operation :=
         Operation(ids.run, command.execution, command.task, Accepted, None, None, NoPayload, now, now)],
       runs := t.runs[ids.run := AgentRun(ids.operation, 1, now)],
       outbox := t.outbox[ids.message := OutboxMessage(ids.operation, 0, now, None, now)],
       events := t.events[ids.run := Log(t, ids.run) + [CreatedEvent(command.task, ids.run, now, "决策任务已接受")]])
  }

  /** `existing` is the operation already stored under the execution id, when there is one. */
  function Submit(t: Tables, command: Command, owner: Id, existing: Option<Id>, ids: SubmitIds, now: Time)
    : (Tables, Result<TaskSnapshot, Error>)
    requires ExistingFor(t, command.execution, existing)
  {
    if existing.Some? then
      var submission := t.submissions[command.execution];
      if submission.owner != owner || submission.fingerprint != CanonicalJson.Canonicalize(command.body) then
        (t, Err(IdempotencyConflict))
      else (t, ToTaskSnapshot(t.operations[existing.value]))
    else if command.execution in t.submissions || ids.operation in t.operations
         || ids.run in t.runs || ids.message in t.outbox then
      (t, Err(PersistenceUnavailable))
    else
      (Accept(t, command, owner, ids, now),
       Ok(TaskSnapshot(command.execution, command.task, ids.run, Accepted, false, None, now)))
  }

  /** The result of joining the submission with its operation. */
  predicate ExistingFor(t: Tables, execution: Id, existing: Option<Id>) {
    match existing
    case None => execution !in t.submissions || OperationOf(t, execution) == {}
    case Some(o) => execution in t.submissions && o in OperationOf(t, execution)
  }

  // ---------------------------------------------------------------- ordinary claims

  datatype ClaimResult =
    | Claimed(operation: Id, run: Id, owner: Id, command: Command)
    | Deferred
    | UnknownOperation
    | AlreadyFinished
    | ClaimFailed(error: Error)

  predicate LeaseBefore(lease: Option<Time>, now: Time) {
    lease.Some? && lease.value < now
  }

  predicate Claimable(row: Operation, now: Time) {
    row.state == Accepted || row.state == FailedRetryable
    || (row.state == Running && LeaseBefore(row.leaseExpiresAt, now))
  }

  predicate Finished(state: OperationState) {
    state == Completed || state == FailedFinal || state == Partial || state == Cancelled
  }

  function Attempts(t: Tables, operation: Id): set<nat> {
    set r | r in t.runs && t.runs[r].operation == operation :: t.runs[r].attempt
  }

  /** `COALESCE(MAX(attempt), 0)`. */
  function MaxAttempt(attempts: set<nat>): (m: nat)
    ensures attempts == {} ==> m == 0
    ensures attempts != {} ==> m in attempts
    ensures forall a :: a in attempts ==> a <= m
  {
    if attempts == {} then 0
    else
      MaximumExists(attempts);
      var m :| m in attempts && forall a :: a in attempts ==> a <= m;
      m
  }

  lemma {:induction false} MaximumExists(attempts: set<nat>)
    requires attempts != {}
    ensures exists m :: m in attempts && forall a :: a in attempts ==> a <= m
  {
    var x :| x in attempts;
    if attempts != {x} {
      var rest := attempts - {x};
      MaximumExists(rest);
      var m :| m in rest && forall a :: a in rest ==> a <= m;
      var top := if x > m then x else m;
      assert forall a :: a in attempts ==> a == x || a in rest;
      assert top in attempts && forall a :: a in attempts ==> a <= top;
    }
  }

  function StartAttempt(t: Tables, operation: Id, row: Operation, freshRun: Id, now: Time): Tables {
    Append(t.(runs := t.runs[freshRun := AgentRun(operation, MaxAttempt(Attempts(t, operation)) + 1, now)]),
           freshRun, [CreatedEvent(row.task, freshRun, now, "决策任务开始新的重试执行")])
  }

  function UnderstandingEvent(row: Operation, run: Id, sequence: nat, now: Time, summary: string): RunEvent {
    RunEvent(row.task, run, sequence, now, StateChanged, Understanding, summary)
  }

  function ClaimedRow(row: Operation, run: Id, worker: Id, lease: int, now: Time): Operation {
    row.(run := run, state := Running, worker := Some(worker), leaseExpiresAt := Some(now + lease), updatedAt := now)
  }

  function AnnounceRunning(t: Tables, row: Operation, run: Id, now: Time): Tables {
    var log := Log(t, run);
    if log != [] && Last(log).taskState == Understanding then t
    else Append(t, run, [UnderstandingEvent(row, run, |log| + 1, now, "决策任务开始执行")])
  }

  function ClaimNext(t: Tables, operation: Id, worker: Id, lease: int, freshRun: Id, now: Time): (Tables, ClaimResult)
    requires operation in t.operations ==> t.operations[operation].execution in t.submissions
  {
    if operation !in t.operations then (t, UnknownOperation)
    else
      var row := t.operations[operation];
      var submission := t.submissions[row.execution];
      if !Claimable(row, now) then (t, if Finished(row.state) then AlreadyFinished else Deferred)
      else if row.state == FailedRetryable && freshRun in t.runs then (t, ClaimFailed(PersistenceUnavailable))
      else
        var run := if row.state == FailedRetryable then freshRun else row.run;
        var started := if row.state == FailedRetryable then StartAttempt(t, operation, row, freshRun, now) else t;
        var claimed := WithRow(started, operation, ClaimedRow(row, run, worker, lease, now));
        (AnnounceRunning(claimed, row, run, now), Claimed(operation, run, submission.owner, submission.command))
  }

  // ---------------------------------------------------------------- completion

  datatype CompleteResult =
    | CommittedResult(result: TaskResult)
    | CommittedSnapshot(snapshot: TaskSnapshot)
    | NotCompletable
    | CompleteFailed(error: Error)

  predicate IsCommit(r: CompleteResult) {
    r.CommittedResult? || r.CommittedSnapshot?
  }

  predicate Decodes(outcome: Outcome) {
    match outcome
    case PausedWith(p) => ValidPaused(p)
    case ResultWith(r) => ValidResult(r)
    case Explicit(_, summary, _) => Meaningful(summary)
  }

  function OutcomeState(outcome: Outcome): OperationState {
    match outcome
    case PausedWith(p) => Paused(p.kind)
    case ResultWith(r) => if r.ok then Completed else FailedFinal
    case Explicit(Retryable, _, _) => FailedRetryable
    case Explicit(Final, _, _) => FailedFinal
    case Explicit(Part, _, _) => Partial
  }

  /** The run and the task that the outcome names, when it names one. */
  predicate OutcomeFits(outcome: Outcome, row: Operation) {
    match outcome
    case PausedWith(p) => p.snapshot.run == row.run && p.snapshot.task == row.task
    case ResultWith(r) => r.run == row.run && r.task == row.task
    case Explicit(_, _, _) => true
  }

  /** The WHERE clause of the completing update. */
  predicate Completable(t: Tables, operation: Id, worker: Id, outcome: Outcome, now: Time) {
    && operation in t.operations
    && var row := t.operations[operation];
       && row.worker == Some(worker)
       && row.state == Running
       && row.leaseExpiresAt.Some? && row.leaseExpiresAt.value >= now
       && OutcomeFits(outcome, row)
  }

  /** The events whose state the log does not have yet. */
  function Unseen(events: seq<RunEvent>, seen: set<TaskState>): (r: seq<RunEvent>)
    ensures |r| <= |events|
  {
    if events == [] then []
    else if events[0].taskState in seen then Unseen(events[1..], seen)
    else [events[0]] + Unseen(events[1..], seen)
  }

  function CompletedOnly(events: seq<RunEvent>): seq<RunEvent> {
    if events == [] then []
    else if events[0].taskState == TaskCompleted then [events[0]] + CompletedOnly(events[1..])
    else CompletedOnly(events[1..])
  }

  /** The event as it is stored in the log of `row`'s current run. */
  function Restamp(e: RunEvent, row: Operation, sequence: nat, occurredAt: Time): RunEvent {
    e.(task := row.task, run := row.run, sequence := sequence, summary := PublicSummary(e), occurredAt := occurredAt)
  }

  /** Events of `row`'s current run, numbered on from the end of its log. */
  predicate Continues(log: seq<RunEvent>, events: seq<RunEvent>, row: Operation) {
    forall i :: 0 <= i < |events| ==>
      events[i].run == row.run && events[i].task == row.task && events[i].sequence == |log| + i + 1
  }

  /** A result's new events: numbered after the log; the last one happened when it was persisted. */
  function ResultEvents(log: seq<RunEvent>, events: seq<RunEvent>, row: Operation, now: Time): (r: seq<RunEvent>)
    ensures Continues(log, r, row)
  {
    var candidates := if HasPause(log) then CompletedOnly(events) else events;
    StampResult(Unseen(candidates, States(log)), |log|, row, now)
  }

  function StampResult(events: seq<RunEvent>, offset: nat, row: Operation, now: Time): (r: seq<RunEvent>)
    ensures |r| == |events|
    ensures forall i :: 0 <= i < |r| ==>
              r[i] == Restamp(events[i], row, offset + i + 1, if i == |events| - 1 then now else events[i].occurredAt)
  {
    seq(|events|, i requires 0 <= i < |events| =>
      Restamp(events[i], row, offset + i + 1, if i == |events| - 1 then now else events[i].occurredAt))
  }

  /** After a pause the stored result keeps its own events, renumbered, instead of the log. */
  function RecoveredEvents(events: seq<RunEvent>, now: Time): seq<RunEvent> {
    seq(|events|, i requires 0 <= i < |events| =>
      events[i].(sequence := i + 1, summary := PublicSummary(events[i]),
                 occurredAt := if i == |events| - 1 then now else events[i].occurredAt))
  }

  /** The result as it is written to the operation; None when there is no event to point at. */
  function StoredResult(log: seq<RunEvent>, r: TaskResult, row: Operation, now: Time): Option<TaskResult> {
    var full := log + ResultEvents(log, r.runEvents, row, now);
    var events := if HasPause(log) then RecoveredEvents(r.runEvents, now) else full;
    if full == [] || events == [] then None
    else Some(r.(latestEventSequence := Last(events).sequence, updatedAt := Last(events).occurredAt, runEvents := events))
  }

  function PauseEvents(log: seq<RunEvent>, p: PausedOutcome, row: Operation, now: Time): (r: seq<RunEvent>)
    ensures Continues(log, r, row)
  {
    var unseen := Unseen(p.runEvents, States(log));
    if unseen == [] && p.runEvents != []
       && (log == [] || Last(log).taskState != TaskPaused(p.kind) || Last(log).summary != PublicSummary(Last(p.runEvents)))
    then [Restamp(Last(p.runEvents), row, |log| + 1, now).(taskState := TaskPaused(p.kind))]
    else seq(|unseen|, i requires 0 <= i < |unseen| => Restamp(unseen[i], row, |log| + i + 1, now))
  }

  function StoredPause(log: seq<RunEvent>, p: PausedOutcome, row: Operation, now: Time): PausedOutcome {
    p.(runEvents := log + PauseEvents(log, p, row, now))
  }

  function ExplicitSummary(state: OperationState): string {
    if state == FailedRetryable then "决策任务暂时失败，等待重试"
    else if state == FailedFinal then "决策任务执行失败，已结束"
    else if state == Partial then "决策任务仅部分完成"
    else "决策任务已完成"
  }

  function FailureEvent(row: Operation, state: OperationState, sequence: nat, now: Time): RunEvent {
    RunEvent(row.task, row.run, sequence, now, RuntimeFailed, TaskFailed, ExplicitSummary(state))
  }

  function ReleasedRow(row: Operation, state: OperationState, payload: Payload, updatedAt: Time): Operation {
    row.(state := state, payload := payload, updatedAt := updatedAt, worker := None, leaseExpiresAt := None)
  }

  function WithRow(t: Tables, operation: Id, row: Operation): Tables {
    t.(operations := t.operations[operation := row])
  }

  /** Updating the row, appending events and updating the row again writes the last row and the events. */
  lemma LastUpdateWins(t: Tables, operation: Id, first: Operation, second: Operation, run: Id, events: seq<RunEvent>)
    ensures Log(WithRow(t, operation, first), run) == Log(t, run)
    ensures WithRow(Append(WithRow(t, operation, first), run, events), operation, second)
            == Append(WithRow(t, operation, second), run, events)
  {
    var m := t.operations;
    assert m[operation := first][operation := second] == m[operation := second];
  }

  function RecordPause(t: Tables, operation: Id, p: PausedOutcome, now: Time): (Tables, CompleteResult)
    requires operation in t.operations
  {
    var row := t.operations[operation];
    var log := Log(t, row.run);
    var stored := StoredPause(log, p, row, now);
    if !ValidPaused(stored) then (t, CompleteFailed(PersistenceUnavailable))
    else
      var released := ReleasedRow(row, Paused(p.kind), Stored(PausedWith(stored)), Last(stored.runEvents).occurredAt);
      (Append(WithRow(t, operation, released), row.run, PauseEvents(log, p, row, now)), Answer(ToTaskSnapshot(released)))
  }

  function RecordResult(t: Tables, operation: Id, r: TaskResult, now: Time): (Tables, CompleteResult)
    requires operation in t.operations
  {
    var row := t.operations[operation];
    var log := Log(t, row.run);
    var state := OutcomeState(ResultWith(r));
    var stored := StoredResult(log, r, row, now);
    if stored.None? || !ValidResult(stored.value) || stored.value.run != row.run || stored.value.task != row.task then
      (t, CompleteFailed(PersistenceUnavailable))
    else
      var released := ReleasedRow(row, state, Stored(ResultWith(stored.value)), stored.value.updatedAt);
      (Append(WithRow(t, operation, released), row.run, ResultEvents(log, r.runEvents, row, now)),
       if state == Completed then CommittedResult(stored.value)
       else Answer(ToTaskSnapshot(ReleasedRow(row, state, Stored(ResultWith(r)), now))))
  }

  function RecordExplicit(t: Tables, operation: Id, outcome: Outcome, now: Time): (Tables, CompleteResult)
    requires operation in t.operations && outcome.Explicit?
  {
    var row := t.operations[operation];
    var state := OutcomeState(outcome);
    var released := ReleasedRow(row, state, Stored(outcome), now);
    (Append(WithRow(t, operation, released), row.run, [FailureEvent(row, state, |Log(t, row.run)| + 1, now)]),
     Answer(ToTaskSnapshot(released)))
  }

  /** The operation row, its log and the answer, before any control request is closed. */
  function Record(t: Tables, operation: Id, outcome: Outcome, now: Time): (Tables, CompleteResult)
    requires operation in t.operations
  {
    match outcome
    case PausedWith(p) => RecordPause(t, operation, p, now)
    case ResultWith(r) => RecordResult(t, operation, r, now)
    case Explicit(_, _, _) => RecordExplicit(t, operation, outcome, now)
  }

  function Answer(snapshot: Result<TaskSnapshot, Error>): CompleteResult {
    match snapshot
    case Ok(s) => CommittedSnapshot(s)
    case Err(e) => CompleteFailed(e)
  }

  function OutcomeControlError(outcome: Outcome): Option<ControlError> {
    match outcome
    case PausedWith(_) => Some(ResumeDenied)
    case ResultWith(_) => None
    case Explicit(state, _, Some(e)) => Some(e)
    case Explicit(state, _, None) => if state == Part then None else Some(RuntimeFailure)
  }

  /** The control request that the completing worker may close. */
  predicate Closable(t: Tables, request: Id, operation: Id, worker: Id) {
    && request in t.requests
    && t.requests[request].operation == operation
    && t.requests[request].worker == Some(worker)
    && t.requests[request].state == RequestRunning
  }

  function Close(t: Tables, request: Id, outcome: Outcome, now: Time): Tables
    requires request in t.requests
  {
    var state := match OutcomeControlError(outcome) case None => RequestCompleted case Some(e) => RequestFailed(e);
    t.(requests := t.requests[request :=
      t.requests[request].(state := state, worker := None, leaseExpiresAt := None, updatedAt := now)])
  }

  function Complete(t: Tables, operation: Id, worker: Id, outcome: Outcome, control: Option<Id>, now: Time)
    : (Tables, CompleteResult)
  {
    if !Decodes(outcome) then (t, CompleteFailed(PersistenceUnavailable))
    else if !Completable(t, operation, worker, outcome, now) then (t, NotCompletable)
    else
      var (recorded, answer) := Record(t, operation, outcome, now);
      if answer.CompleteFailed? then (t, answer)
      else if control.None? then (recorded, answer)
      else if !Closable(recorded, control.value, operation, worker) then (t, NotCompletable)
      else (Close(recorded, control.value, outcome, now), answer)
  }

  // ---------------------------------------------------------------- control requests

  datatype ResumeInput = ResumeInput(
    request: Id, task: Id, owner: Id, snapshotId: Id, correlation: Id, confirmationOperation: Id, confirmationUser: Id)

  datatype CancelInput = CancelInput(request: Id, task: Id, owner: Id, cancellationId: Id, correlation: Id)

  /** The operations of one task that belong to one owner. */
  predicate OwnedOperation(t: Tables, operation: Id, task: Id, owner: Id) {
    && operation in t.operations
    && t.operations[operation].task == task
    && t.operations[operation].execution in t.submissions
    && t.submissions[t.operations[operation].execution].owner == owner
  }

  /** The row a query for the newest operation of a task returns. */
  predicate Newest(t: Tables, task: Id, owner: Id, selected: Option<Id>) {
    match selected
    case None => forall o :: o in t.operations ==> !OwnedOperation(t, o, task, owner)
    case Some(s) =>
      && OwnedOperation(t, s, task, owner)
      && forall o :: o in t.operations && OwnedOperation(t, o, task, owner)
           ==> t.operations[o].createdAt <= t.operations[s].createdAt
  }

  predicate SameRequest(stored: ControlRequest, operation: Id, row: Operation, task: Id, owner: Id,
                        action: ControlAction, correlation: Id)
  {
    && stored.operation == operation && stored.task == task && stored.run == row.run
    && stored.owner == owner && stored.action == action && stored.correlation == correlation
  }

  function RequestResume(t: Tables, input: ResumeInput, selected: Option<Id>, now: Time)
    : (Tables, Result<Option<ControlRequest>, Error>)
    requires Newest(t, input.task, input.owner, selected)
  {
    var action := Resume(input.snapshotId, input.confirmationOperation, input.confirmationUser);
    if input.confirmationOperation != input.request || input.confirmationUser != input.owner then (t, Err(ControlRejected))
    else if selected.None? then (t, Ok(None))
    else
      var row := t.operations[selected.value];
      if input.request in t.requests then
        var stored := t.requests[input.request];
        (t, if SameRequest(stored, selected.value, row, input.task, input.owner, action, input.correlation)
            then Ok(Some(stored)) else Err(IdempotencyConflict))
      else
        match ToTaskSnapshot(row)
        case Err(e) => (t, Err(e))
        case Ok(snapshot) =>
          if !row.state.Paused? || snapshot.runtimeSnapshotId != Some(input.snapshotId) then (t, Err(ControlRejected))
          else if input.snapshotId !in t.facts || row.run !in t.runs then (t, Err(PersistenceUnavailable))
          else
            var request := ControlRequest(selected.value, input.task, row.run, input.owner, action, input.correlation,
                                          RequestAccepted, None, None, now, now);
            (t.(requests := t.requests[input.request := request]), Ok(Some(request)))
  }

  function CancelEvent(row: Operation, sequence: nat, now: Time): RunEvent {
    RunEvent(row.task, row.run, sequence, now, StateChanged, TaskCancelled, "决策任务已取消")
  }

  function CancelController(t: Tables, run: Id, cancellationId: Id, events: seq<RunEvent>, now: Time): Tables {
    var snapshotId := if run in t.controllers then t.controllers[run].snapshotId else None;
    t.(controllers := t.controllers[run :=
      Controller(snapshotId, ControllerCancelled, events, None, None, Some(cancellationId), now)])
  }

  /** The writes of a cancellation: the request, the controller, the operation and its log. */
  function CancelOperation(t: Tables, operation: Id, input: CancelInput, request: ControlRequest, now: Time): Tables
    requires operation in t.operations
  {
    var row := t.operations[operation];
    var event := CancelEvent(row, |Log(t, row.run)| + 1, now);
    var requested := t.(requests := t.requests[input.request := request]);
    var stopped := CancelController(requested, row.run, input.cancellationId, [event], now);
    var released := WithRow(stopped, operation, ReleasedRow(row, Cancelled, CancelMark, now));
    Append(released, row.run, [event])
  }

  predicate Uncancellable(state: OperationState) {
    state == Completed || state == FailedFinal || state == Cancelled
  }

  function RequestCancel(t: Tables, input: CancelInput, selected: Option<Id>, now: Time)
    : (Tables, Result<Option<ControlRequest>, Error>)
    requires Newest(t, input.task, input.owner, selected)
  {
    if selected.None? then (t, Ok(None))
    else
      var row := t.operations[selected.value];
      var action := Cancel(input.cancellationId);
      if input.request in t.requests then
        var stored := t.requests[input.request];
        (t, if SameRequest(stored, selected.value, row, input.task, input.owner, action, input.correlation)
            then Ok(Some(stored)) else Err(IdempotencyConflict))
      else if Uncancellable(row.state) then (t, Err(CancelRejected))
      else if row.run !in t.runs then (t, Err(PersistenceUnavailable))
      else
        var request := ControlRequest(selected.value, input.task, row.run, input.owner, action, input.correlation,
                                      RequestCompleted, None, None, now, now);
        (CancelOperation(t, selected.value, input, request, now), Ok(Some(request)))
  }

  datatype ControlClaim =
    | ControlClaimed(request: Id, operation: Id, run: Id, owner: Id, snapshot: RuntimeSnapshot, receipts: set<EffectReceipt>)
    | ControlEmpty

  /** The WHERE clause of the control claim; one such row is selected, whichever others are locked. */
  predicate ControlSelectable(t: Tables, request: Id, now: Time) {
    && request in t.requests
    && t.requests[request].operation in t.operations
    && t.operations[t.requests[request].operation].execution in t.submissions
    && t.requests[request].action.Resume?
    && (t.requests[request].state == RequestAccepted
        || (t.requests[request].state == RequestRunning && LeaseBefore(t.requests[request].leaseExpiresAt, now)))
  }

  function FailRequest(t: Tables, request: Id, error: ControlError, now: Time): Tables
    requires request in t.requests
  {
    t.(requests := t.requests[request :=
      t.requests[request].(state := RequestFailed(error), worker := None, leaseExpiresAt := None, updatedAt := now)])
  }

  function ReceiptsOf(t: Tables, snapshotId: Id): set<EffectReceipt> {
    set r | r in t.receipts && t.receipts[r].snapshotId == snapshotId :: t.receipts[r].receipt
  }

  /** The request still agrees with the paused payload of its operation. */
  predicate RequestMatches(q: ControlRequest, request: Id, row: Operation) {
    && q.action.Resume?
    && (if q.state == RequestRunning then row.state == Running else row.state.Paused?)
    && row.payload.Stored? && row.payload.outcome.PausedWith?
    && var p := row.payload.outcome.paused;
       && ValidPaused(p)
       && p.snapshot.snapshotId == q.action.snapshotId
       && p.snapshot.run == q.run
       && p.snapshot.task == q.task
       && q.action.confirmationOperation == request
       && q.action.confirmationUser == q.owner
  }

  function ManualVerificationEvent(q: ControlRequest, state: TaskState, sequence: nat, now: Time): RunEvent {
    RunEvent(q.task, q.run, sequence, now, StateChanged, state, "副作用状态需要人工核验")
  }

  function ResumeEvent(q: ControlRequest, sequence: nat, now: Time): RunEvent {
    RunEvent(q.task, q.run, sequence, now, StateChanged, Understanding, "决策任务正在安全恢复")
  }

  function ClaimControl(t: Tables, request: Id, worker: Id, lease: int, now: Time): (Tables, ControlClaim)
    requires ControlSelectable(t, request, now)
  {
    var q := t.requests[request];
    var row := t.operations[q.operation];
    if !RequestMatches(q, request, row) then (FailRequest(t, request, SnapshotInvalid, now), ControlEmpty)
    else if q.action.snapshotId !in t.facts then (FailRequest(t, request, Unavailable, now), ControlEmpty)
    else
      var snapshot := t.facts[q.action.snapshotId];
      var receipts := ReceiptsOf(t, q.action.snapshotId);
      var log := Log(t, q.run);
      match RecoveryPermission(snapshot, receipts)
      case PermissionDenied => (FailRequest(t, request, ResumeDenied, now), ControlEmpty)
      case ManualVerification =>
        (Append(FailRequest(t, request, ResumeDenied, now), q.run,
                [ManualVerificationEvent(q, snapshot.taskState, |log| + 1, now)]), ControlEmpty)
      case ResumeAllowed =>
        var held := t.(requests := t.requests[request :=
          q.(state := RequestRunning, worker := Some(worker), leaseExpiresAt := Some(now + lease), updatedAt := now)]);
        var claimed := WithRow(held, q.operation,
          row.(state := Running, worker := Some(worker), leaseExpiresAt := Some(now + lease), updatedAt := now));
        (if q.state == RequestRunning then claimed else Append(claimed, q.run, [ResumeEvent(q, |log| + 1, now)]),
         ControlClaimed(request, q.operation, q.run, q.owner, snapshot, receipts))
  }

  // ---------------------------------------------------------------- the runtime controller table

  datatype ControllerResult = Acquired(events: seq<RunEvent>) | Unchanged | Busy | Denied | ControllerMissing

  function WithController(t: Tables, run: Id, c: Controller): Tables {
    t.(controllers := t.controllers[run := c])
  }

  /** The states a controller row may take from a recovery snapshot: the column's check constraint. */
  function ControllerStateOf(s: TaskState): Option<ControllerState> {
    match s
    case TaskPaused(k) => Some(ControllerPaused(k))
    case TaskCompleted => Some(ControllerCompleted)
    case TaskCancelled => Some(ControllerCancelled)
    case TaskFailed => Some(ControllerFailed)
    case _ => None
  }

  function AddReceipts(stored: map<Id, StoredReceipt>, snapshotId: Id, receipts: seq<EffectReceipt>): map<Id, StoredReceipt>
    decreases |receipts|
  {
    if receipts == [] then stored
    else
      var r := receipts[0];
      AddReceipts(if r.receiptId in stored then stored else stored[r.receiptId := StoredReceipt(snapshotId, r)],
                  snapshotId, receipts[1..])
  }

  function ToSet<T>(s: seq<T>): set<T> {
    set i | 0 <= i < |s| :: s[i]
  }

  /** `objectsPresent`: the raw snapshot and the results of all committed receipts are stored. */
  function SaveFacts(t: Tables, snapshot: RuntimeSnapshot, receipts: seq<EffectReceipt>, objectsPresent: bool, now: Time)
    : (Tables, Result<(), Error>)
  {
    var stored := AddReceipts(t.receipts, snapshot.snapshotId, receipts);
    var saved := t.(facts := t.facts[snapshot.snapshotId := snapshot], receipts := stored);
    if (exists r :: r in receipts && !BelongsTo(r, snapshot)) || !objectsPresent
       || (snapshot.snapshotId in t.facts && t.facts[snapshot.snapshotId] != snapshot)
       || ReceiptsOf(saved, snapshot.snapshotId) != ToSet(receipts)
       || |ReceiptsOf(saved, snapshot.snapshotId)| != |receipts|
       || ControllerStateOf(snapshot.taskState).None?
    then (t, Err(PersistenceUnavailable))
    else if snapshot.run !in t.controllers then
      (WithController(saved, snapshot.run,
         Controller(Some(snapshot.snapshotId), ControllerStateOf(snapshot.taskState).value, [], None, None, None, now)),
       Ok(()))
    else
      var c := t.controllers[snapshot.run];
      if c.state == ControllerRunning && c.snapshotId.None? then
        (WithController(saved, snapshot.run, c.(snapshotId := Some(snapshot.snapshotId), updatedAt := now)), Ok(()))
      else (saved, Ok(()))
  }

  function RecordRunning(t: Tables, run: Id, controllerId: Id, lease: int, now: Time): (Tables, Result<(), Error>) {
    if run !in t.controllers then
      (WithController(t, run, Controller(None, ControllerRunning, [], Some(controllerId), Some(now + lease), None, now)), Ok(()))
    else
      var c := t.controllers[run];
      if c.state == ControllerRunning
         && (c.controllerId == Some(controllerId)
             || (c.snapshotId.None? && c.leaseExpiresAt.Some? && c.leaseExpiresAt.value <= now))
      then (WithController(t, run, c.(controllerId := Some(controllerId), leaseExpiresAt := Some(now + lease), updatedAt := now)), Ok(()))
      else (t, Err(PersistenceUnavailable))
  }

  function ResumeController(t: Tables, run: Id, snapshotId: Id, controllerId: Id, lease: int, now: Time): (Tables, ControllerResult) {
    if run !in t.controllers then (t, ControllerMissing)
    else
      var c := t.controllers[run];
      if c.snapshotId != Some(snapshotId) then (t, Denied)
      else if c.state == ControllerRunning && c.controllerId == Some(controllerId) then (t, Unchanged)
      else if c.state == ControllerRunning && c.leaseExpiresAt.Some? && c.leaseExpiresAt.value > now then (t, Busy)
      else if c.state == ControllerCompleted then (t, Unchanged)
      else if c.state != ControllerRunning && !c.state.ControllerPaused? then (t, Denied)
      else
        (WithController(t, run, c.(state := ControllerRunning, events := [], controllerId := Some(controllerId),
                                   leaseExpiresAt := Some(now + lease), updatedAt := now)),
         Acquired([]))
  }

  function FinishController(t: Tables, run: Id, controllerId: Id, expected: Option<Id>, next: Option<Id>,
                            state: ControllerState, events: seq<RunEvent>, now: Time): (Tables, Result<(), Error>)
  {
    if run !in t.controllers then (t, Err(PersistenceUnavailable))
    else
      var c := t.controllers[run];
      if c.snapshotId == expected && c.state == ControllerRunning && c.controllerId == Some(controllerId) then
        if next.Some? && next.value !in t.facts then (t, Err(PersistenceUnavailable))
        else
          (WithController(t, run, c.(snapshotId := next, state := state, events := events,
                                     controllerId := None, leaseExpiresAt := None, updatedAt := now)), Ok(()))
      else if c.snapshotId == next && c.state == state && c.events == events then (t, Ok(()))
      else (t, Err(PersistenceUnavailable))
  }

  function CancelRuntime(t: Tables, run: Id, cancellationId: Id, events: seq<RunEvent>, now: Time): (Tables, ControllerResult) {
    if run !in t.controllers then (t, ControllerMissing)
    else
      var c := t.controllers[run];
      if c.state == ControllerCancelled then (t, Unchanged)
      else if c.state == ControllerCompleted || c.state == ControllerFailed then (t, Denied)
      else (CancelController(t, run, cancellationId, events, now), Acquired(events))
  }

  // ---------------------------------------------------------------- the outbox

  /** The WHERE clause of the outbox selection. */
  predicate Publishable(t: Tables, message: Id, now: Time) {
    && message in t.outbox
    && t.outbox[message].operation in t.operations
    && t.outbox[message].nextAttemptAt <= now
    && var row := t.operations[t.outbox[message].operation];
       || t.outbox[message].publishedAt.None?
       || row.state == Accepted || row.state == FailedRetryable
       || (row.state == Running && LeaseBefore(row.leaseExpiresAt, now))
  }

  datatype Delays = Delays(retry: int, republish: int)

  /** The selected row after the attempt: `delivered` is whether the stream and the update both succeeded. */
  function Publish(t: Tables, message: Id, delivered: bool, delays: Delays, now: Time): Tables
    requires message in t.outbox
  {
    var m := t.outbox[message];
    t.(outbox := t.outbox[message :=
      if delivered then m.(publishedAt := Some(now), nextAttemptAt := now + delays.republish)
      else m.(attempts := m.attempts + 1, nextAttemptAt := now + delays.retry)])
  }
}
