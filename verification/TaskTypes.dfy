/** The rows of the decision-task database, and the contracts its payloads must meet. */
module TaskTypes {
  import opened Wrappers
  import opened Text
  import CanonicalJson

  type Id = string
  /** Milliseconds. */
  type Time = int

  datatype PauseKind = User | Permission | SourceLogin | Limit

  datatype TaskState =
    | Created | Understanding | Planning | Researching | Verifying | GapResearch
    | Comparing | Critiquing | Generating
    | TaskPaused(kind: PauseKind)
    | TaskCompleted | TaskFailed | TaskCancelled

  datatype EventType = StateChanged | RuntimeSucceeded | RuntimeFailed

  datatype RunEvent = RunEvent(
    task: Id, run: Id, sequence: nat, occurredAt: Time,
    eventType: EventType, taskState: TaskState, summary: string)

  datatype ReceiptState = NotStarted | Started | Unknown | Committed

  datatype EffectReceipt = EffectReceipt(receiptId: Id, task: Id, run: Id, checkpoint: Id, state: ReceiptState)

  datatype RuntimeSnapshot = RuntimeSnapshot(
    snapshotId: Id, task: Id, run: Id, checkpoint: Id, taskState: TaskState, resumable: bool)

  datatype PausedOutcome = PausedOutcome(
    kind: PauseKind, summary: string, snapshot: RuntimeSnapshot,
    receipts: seq<EffectReceipt>, runEvents: seq<RunEvent>)

  datatype TaskResult = TaskResult(
    ok: bool, task: Id, run: Id, latestEventSequence: nat, updatedAt: Time, runEvents: seq<RunEvent>)

  datatype ControlError =
    | SnapshotInvalid | ProtocolUnsupported | ResumeDenied | ResumeInProgress
    | RuntimeFailure | CancelRace | Unavailable | ResultUnavailable

  datatype ExplicitState = Retryable | Final | Part

  datatype Outcome =
    | PausedWith(paused: PausedOutcome)
    | ResultWith(result: TaskResult)
    | Explicit(state: ExplicitState, summary: string, controlError: Option<ControlError>)

  datatype OperationState =
    | Accepted | Running | Completed | FailedRetryable | FailedFinal | Partial
    | Paused(kind: PauseKind) | Cancelled

  datatype Payload = NoPayload | Stored(outcome: Outcome) | CancelMark

  datatype Command = Command(execution: Id, task: Id, body: CanonicalJson.Json)

  /** The fingerprint is the canonical text itself: the digest over it is taken to be injective. */
  datatype Submission = Submission(owner: Id, fingerprint: Text, task: Id, command: Command)

  datatype Operation = Operation(
    run: Id, execution: Id, task: Id, state: OperationState,
    worker: Option<Id>, leaseExpiresAt: Option<Time>,
    payload: Payload, createdAt: Time, updatedAt: Time)

  datatype AgentRun = AgentRun(operation: Id, attempt: nat, createdAt: Time)

  datatype ControlAction =
    | Resume(snapshotId: Id, confirmationOperation: Id, confirmationUser: Id)
    | Cancel(cancellationId: Id)

  datatype RequestState = RequestAccepted | RequestRunning | RequestCompleted | RequestFailed(error: ControlError)

  datatype ControlRequest = ControlRequest(
    operation: Id, task: Id, run: Id, owner: Id, action: ControlAction, correlation: Id,
    state: RequestState, worker: Option<Id>, leaseExpiresAt: Option<Time>,
    createdAt: Time, updatedAt: Time)

  datatype ControllerState =
    | ControllerRunning | ControllerPaused(kind: PauseKind)
    | ControllerCompleted | ControllerCancelled | ControllerFailed

  datatype Controller = Controller(
    snapshotId: Option<Id>, state: ControllerState, events: seq<RunEvent>,
    controllerId: Option<Id>, leaseExpiresAt: Option<Time>, cancellationId: Option<Id>, updatedAt: Time)

  datatype OutboxMessage = OutboxMessage(
    operation: Id, attempts: nat, nextAttemptAt: Time, publishedAt: Option<Time>, createdAt: Time)

  datatype StoredReceipt = StoredReceipt(snapshotId: Id, receipt: EffectReceipt)

  /** All tables; the events of each agent run are in the order they were inserted. */
  datatype Tables = Tables(
    submissions: map<Id, Submission>,
    operations: map<Id, Operation>,
    runs: map<Id, AgentRun>,
    events: map<Id, seq<RunEvent>>,
    requests: map<Id, ControlRequest>,
    controllers: map<Id, Controller>,
    facts: map<Id, RuntimeSnapshot>,
    receipts: map<Id, StoredReceipt>,
    outbox: map<Id, OutboxMessage>)

  const EMPTY := Tables(map[], map[], map[], map[], map[], map[], map[], map[], map[])

  datatype Error = IdempotencyConflict | PersistenceUnavailable | ControlRejected | CancelRejected

  // ---------------------------------------------------------------- contracts

  function Last<T>(s: seq<T>): T
    requires s != []
  {
    s[|s| - 1]
  }

  function States(log: seq<RunEvent>): set<TaskState> {
    set i | 0 <= i < |log| :: log[i].taskState
  }

  predicate HasPause(log: seq<RunEvent>) {
    exists i :: 0 <= i < |log| && log[i].taskState.TaskPaused?
  }

  predicate BelongsTo(receipt: EffectReceipt, snapshot: RuntimeSnapshot) {
    receipt.task == snapshot.task && receipt.run == snapshot.run && receipt.checkpoint == snapshot.checkpoint
  }

  predicate ValidPaused(p: PausedOutcome) {
    && p.runEvents != []
    && p.snapshot.taskState == TaskPaused(p.kind)
    && Last(p.runEvents).taskState == TaskPaused(p.kind)
    && p.runEvents[0].task == p.snapshot.task
    && p.runEvents[0].run == p.snapshot.run
    && forall r :: r in p.receipts ==> BelongsTo(r, p.snapshot)
  }

  /** The order in which a successful result may pass through the states; 10 for any other state. */
  function Stage(s: TaskState): nat {
    match s
    case Created => 0
    case Understanding => 1
    case Planning => 2
    case Researching => 3
    case Verifying => 4
    case GapResearch => 5
    case Comparing => 6
    case Critiquing => 7
    case Generating => 8
    case TaskCompleted => 9
    case _ => 10
  }

  /** What the result contract says of the events and the status that points at them. */
  predicate EventsConsistent(r: TaskResult) {
    && r.runEvents != []
    && (forall i :: 0 <= i < |r.runEvents| ==>
          && r.runEvents[i].sequence == i + 1
          && r.runEvents[i].task == r.task
          && r.runEvents[i].run == r.run)
    && r.latestEventSequence == Last(r.runEvents).sequence
    && r.updatedAt == Last(r.runEvents).occurredAt
  }

  predicate StagesAdvance(events: seq<RunEvent>) {
    && (forall i :: 0 <= i < |events| ==> Stage(events[i].taskState) < 10)
    && (forall i, j :: 0 <= i < j < |events| ==> Stage(events[i].taskState) < Stage(events[j].taskState))
  }

  predicate ValidResult(r: TaskResult) {
    && EventsConsistent(r)
    && (!r.ok ==>
          && Last(r.runEvents).taskState == TaskFailed
          && Last(r.runEvents).eventType == RuntimeFailed)
    && (r.ok ==>
          && r.runEvents[0].taskState == Created
          && Last(r.runEvents).taskState == TaskCompleted
          && Last(r.runEvents).eventType == RuntimeSucceeded
          && StagesAdvance(r.runEvents)
          && forall i :: 0 <= i < |r.runEvents| - 1 ==> r.runEvents[i].eventType == StateChanged)
  }

  /** `text.trim().length > 0`. */
  predicate Meaningful(text: string) {
    exists i :: 0 <= i < |text| && !IsSpace(text[i] as int)
  }

  datatype Permission = ResumeAllowed | PermissionDenied | ManualVerification

  function RecoveryPermission(snapshot: RuntimeSnapshot, receipts: set<EffectReceipt>): Permission {
    if exists r :: r in receipts && !BelongsTo(r, snapshot) then PermissionDenied
    else if !snapshot.taskState.TaskPaused? then PermissionDenied
    else if !snapshot.resumable then PermissionDenied
    else if exists r :: r in receipts && (r.state == Started || r.state == Unknown) then ManualVerification
    else ResumeAllowed
  }

  // ---------------------------------------------------------------- public wording

  const APPROVED_SUMMARIES := {
    "Runtime 已复用权威副作用结果并完成",
    "副作用状态需要人工核验（EFFECT_STATUS_UNSAFE）",
    "已提交副作用的权威结果不可用（EFFECT_RESULT_UNAVAILABLE）",
    "已提交副作用的结果完整性校验失败（EFFECT_RESULT_INVALID）",
    "已提交副作用的结果合同无效（EFFECT_RESULT_INVALID）",
    "恢复事实包含冲突的 Decision 草稿结果（EFFECT_RESULT_INVALID）"
  }

  function StateSummary(s: TaskState): string {
    match s
    case Created => "决策任务已创建"
    case Understanding => "正在理解需求"
    case Planning => "正在规划决策步骤"
    case Researching => "正在收集候选与证据"
    case Verifying => "正在核验候选与证据"
    case GapResearch => "正在补充证据缺口"
    case Comparing => "正在比较可行候选"
    case Critiquing => "正在检查风险与反例"
    case Generating => "正在生成可审查决策"
    case TaskPaused(User) => "等待用户补充信息"
    case TaskPaused(Permission) => "等待必要权限"
    case TaskPaused(SourceLogin) => "等待数据源登录"
    case TaskPaused(Limit) => "因资源限制暂停"
    case TaskCompleted => "决策任务已完成"
    case TaskFailed => "决策任务执行失败"
    case TaskCancelled => "决策任务已取消"
  }

  function PublicSummary(e: RunEvent): string {
    if e.summary in APPROVED_SUMMARIES then e.summary else StateSummary(e.taskState)
  }
}
