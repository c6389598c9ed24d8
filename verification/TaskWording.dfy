/** What the logs and the stored outcomes may say: texts of the store itself, and of the runtime only approved ones. */
module TaskWording {
  import opened Wrappers
  import opened TaskTypes
  import opened TaskTransactions
  import opened TaskInvariants
  import opened TaskSteps
  import opened TaskRuns
  import opened TaskTheorems

  /** Every text that a stored event may have. */
  ghost const PUBLIC_TEXTS := {
    "Runtime 已复用权威副作用结果并完成",
    "副作用状态需要人工核验（EFFECT_STATUS_UNSAFE）",
    "已提交副作用的权威结果不可用（EFFECT_RESULT_UNAVAILABLE）",
    "已提交副作用的结果完整性校验失败（EFFECT_RESULT_INVALID）",
    "已提交副作用的结果合同无效（EFFECT_RESULT_INVALID）",
    "恢复事实包含冲突的 Decision 草稿结果（EFFECT_RESULT_INVALID）",
    "决策任务已创建", "正在理解需求", "正在规划决策步骤", "正在收集候选与证据", "正在核验候选与证据",
    "正在补充证据缺口", "正在比较可行候选", "正在检查风险与反例", "正在生成可审查决策",
    "等待用户补充信息", "等待必要权限", "等待数据源登录", "因资源限制暂停",
    "决策任务已完成", "决策任务执行失败", "决策任务已取消",
    "决策任务已接受", "决策任务开始新的重试执行", "决策任务开始执行", "决策任务正在安全恢复", "副作用状态需要人工核验",
    "决策任务暂时失败，等待重试", "决策任务执行失败，已结束", "决策任务仅部分完成"
  }

  ghost predicate Public(events: seq<RunEvent>) {
    forall i :: 0 <= i < |events| ==> events[i].summary in PUBLIC_TEXTS
  }

  ghost predicate LogsPublic(t: Tables) {
    forall run :: run in t.events ==> Public(t.events[run])
  }

  ghost predicate RowPublic(row: Operation) {
    match row.payload
    case Stored(PausedWith(p)) => Public(p.runEvents)
    case Stored(ResultWith(r)) => Public(r.runEvents)
    case _ => true
  }

  ghost predicate AllPublic(t: Tables) {
    LogsPublic(t) && forall o :: o in t.operations ==> RowPublic(t.operations[o])
  }

  // ---------------------------------------------------------------- events

  lemma PublicSummaryIsPublic(e: RunEvent)
    ensures PublicSummary(e) in PUBLIC_TEXTS
  {
    if e.taskState.TaskPaused? {
      assert e.taskState.kind.User? || e.taskState.kind.Permission? || e.taskState.kind.SourceLogin? || e.taskState.kind.Limit?;
    }
  }

  lemma PauseEventsPublic(log: seq<RunEvent>, p: PausedOutcome, row: Operation, now: Time)
    ensures Public(PauseEvents(log, p, row, now))
  {
    hide PUBLIC_TEXTS, PublicSummary, States;
    forall e: RunEvent ensures PublicSummary(e) in PUBLIC_TEXTS {
      PublicSummaryIsPublic(e);
    }
  }

  lemma ResultEventsPublic(log: seq<RunEvent>, events: seq<RunEvent>, row: Operation, now: Time)
    ensures Public(ResultEvents(log, events, row, now)) && Public(RecoveredEvents(events, now))
  {
    hide PUBLIC_TEXTS, PublicSummary, States, Unseen, CompletedOnly, HasPause;
    forall e: RunEvent ensures PublicSummary(e) in PUBLIC_TEXTS {
      PublicSummaryIsPublic(e);
    }
  }

  lemma PublicConcat(a: seq<RunEvent>, b: seq<RunEvent>)
    requires Public(a) && Public(b)
    ensures Public(a + b)
  {
    hide PUBLIC_TEXTS;
  }

  lemma LogPublic(t: Tables, run: Id)
    requires LogsPublic(t)
    ensures Public(Log(t, run))
  {
    hide PUBLIC_TEXTS;
  }

  lemma AppendPublic(t: Tables, run: Id, events: seq<RunEvent>)
    requires LogsPublic(t) && Public(events)
    ensures LogsPublic(Append(t, run, events)) && Append(t, run, events).operations == t.operations
  {
    LogPublic(t, run);
    hide Public;
    PublicConcat(Log(t, run), events);
  }

  lemma RowWritten(t: Tables, o: Id, row: Operation)
    requires AllPublic(t) && RowPublic(row)
    ensures AllPublic(WithRow(t, o, row))
  {
    hide RowPublic, Public;
  }

  lemma AppendKeepsPublic(t: Tables, run: Id, events: seq<RunEvent>)
    requires AllPublic(t) && Public(events)
    ensures AllPublic(Append(t, run, events))
  {
    hide RowPublic, Append, LogsPublic, Public;
    AppendPublic(t, run, events);
  }

  lemma SystemTextsPublic(e: RunEvent)
    requires e.summary in {"决策任务已接受", "决策任务开始新的重试执行", "决策任务开始执行", "决策任务正在安全恢复", "决策任务已取消",
                           "副作用状态需要人工核验", "决策任务暂时失败，等待重试", "决策任务执行失败，已结束", "决策任务仅部分完成", "决策任务已完成"}
    ensures Public([e])
  {
  }

  lemma SamePublic(t: Tables, u: Tables)
    requires AllPublic(t) && u.events == t.events && u.operations == t.operations
    ensures AllPublic(u)
  {
    hide RowPublic, Public;
  }

  // ---------------------------------------------------------------- completion

  lemma StoredPausePublic(t: Tables, o: Id, p: PausedOutcome, now: Time)
    requires AllPublic(t) && o in t.operations
    ensures Public(StoredPause(Log(t, t.operations[o].run), p, t.operations[o], now).runEvents)
  {
    hide PUBLIC_TEXTS, RowPublic, Log, PauseEvents, Public;
    LogPublic(t, t.operations[o].run);
    PauseEventsPublic(Log(t, t.operations[o].run), p, t.operations[o], now);
    PublicConcat(Log(t, t.operations[o].run), PauseEvents(Log(t, t.operations[o].run), p, t.operations[o], now));
  }

  lemma StoredResultPublic(t: Tables, o: Id, r: TaskResult, now: Time)
    requires AllPublic(t) && o in t.operations
    ensures var stored := StoredResult(Log(t, t.operations[o].run), r, t.operations[o], now);
            stored.Some? ==> Public(stored.value.runEvents)
  {
    hide PUBLIC_TEXTS, RowPublic, Log, ResultEvents, RecoveredEvents, HasPause, Public;
    var (log, row) := (Log(t, t.operations[o].run), t.operations[o]);
    LogPublic(t, row.run);
    ResultEventsPublic(log, r.runEvents, row, now);
    PublicConcat(log, ResultEvents(log, r.runEvents, row, now));
  }

  lemma PauseKeepsPublic(t: Tables, o: Id, p: PausedOutcome, now: Time)
    requires AllPublic(t) && o in t.operations
    ensures AllPublic(RecordPause(t, o, p, now).0)
  {
    hide AllPublic, Public, Append, WithRow, PauseEvents, StoredPause, ToTaskSnapshot, Log;
    var (log, row) := (Log(t, t.operations[o].run), t.operations[o]);
    var stored := StoredPause(log, p, row, now);
    if ValidPaused(stored) {
      var released := ReleasedRow(row, Paused(p.kind), Stored(PausedWith(stored)), Last(stored.runEvents).occurredAt);
      StoredPausePublic(t, o, p, now);
      RowWritten(t, o, released);
      PauseEventsPublic(log, p, row, now);
      AppendKeepsPublic(WithRow(t, o, released), row.run, PauseEvents(log, p, row, now));
    }
  }

  lemma ResultKeepsPublic(t: Tables, o: Id, r: TaskResult, now: Time)
    requires AllPublic(t) && o in t.operations
    ensures AllPublic(RecordResult(t, o, r, now).0)
  {
    hide AllPublic, Public, Append, WithRow, ResultEvents, StoredResult, ValidResult, ToTaskSnapshot, Log, RecoveredEvents;
    var (log, row) := (Log(t, t.operations[o].run), t.operations[o]);
    var stored := StoredResult(log, r, row, now);
    if stored.Some? {
      var released := ReleasedRow(row, OutcomeState(ResultWith(r)), Stored(ResultWith(stored.value)), stored.value.updatedAt);
      StoredResultPublic(t, o, r, now);
      RowWritten(t, o, released);
      ResultEventsPublic(log, r.runEvents, row, now);
      AppendKeepsPublic(WithRow(t, o, released), row.run, ResultEvents(log, r.runEvents, row, now));
    }
  }

  lemma ExplicitKeepsPublic(t: Tables, o: Id, outcome: Outcome, now: Time)
    requires AllPublic(t) && o in t.operations && outcome.Explicit?
    ensures AllPublic(RecordExplicit(t, o, outcome, now).0)
  {
    hide AllPublic, Public, Append, WithRow, ToTaskSnapshot, Log;
    var row := t.operations[o];
    var released := ReleasedRow(row, OutcomeState(outcome), Stored(outcome), now);
    var event := FailureEvent(row, OutcomeState(outcome), |Log(t, row.run)| + 1, now);
    SystemTextsPublic(event);
    RowWritten(t, o, released);
    AppendKeepsPublic(WithRow(t, o, released), row.run, [event]);
  }

  lemma RecordKeepsPublic(t: Tables, o: Id, outcome: Outcome, now: Time)
    requires AllPublic(t) && o in t.operations
    ensures AllPublic(Record(t, o, outcome, now).0)
  {
    hide AllPublic, RecordPause, RecordResult, RecordExplicit;
    match outcome
    case PausedWith(p) => PauseKeepsPublic(t, o, p, now);
    case ResultWith(r) => ResultKeepsPublic(t, o, r, now);
    case Explicit(_, _, _) => ExplicitKeepsPublic(t, o, outcome, now);
  }

  lemma CompleteKeepsPublic(t: Tables, o: Id, worker: Id, outcome: Outcome, control: Option<Id>, now: Time)
    requires AllPublic(t)
    ensures AllPublic(Complete(t, o, worker, outcome, control, now).0)
  {
    hide AllPublic, Record, Decodes, OutcomeFits, OutcomeControlError;
    if o in t.operations {
      RecordKeepsPublic(t, o, outcome, now);
      var recorded := Record(t, o, outcome, now).0;
      if control.Some? && control.value in recorded.requests {
        SamePublic(recorded, Close(recorded, control.value, outcome, now));
      }
    }
  }

  // ---------------------------------------------------------------- the other transactions

  lemma SubmitKeepsPublic(t: Tables, command: Command, owner: Id, existing: Option<Id>, ids: SubmitIds, now: Time)
    requires AllPublic(t) && ExistingFor(t, command.execution, existing)
    ensures AllPublic(Submit(t, command, owner, existing, ids, now).0)
  {
    hide Public, ToTaskSnapshot, ExistingFor, Accept;
    var event := CreatedEvent(command.task, ids.run, now, "决策任务已接受");
    SystemTextsPublic(event);
    LogPublic(t, ids.run);
    PublicConcat(Log(t, ids.run), [event]);
    assert AllPublic(Accept(t, command, owner, ids, now)) by {
      AcceptKeepsPublic(t, command, owner, ids, now);
    }
    hide AllPublic, LogsPublic, RowPublic;
  }

  lemma AcceptKeepsPublic(t: Tables, command: Command, owner: Id, ids: SubmitIds, now: Time)
    requires AllPublic(t) && Public(Log(t, ids.run) + [CreatedEvent(command.task, ids.run, now, "决策任务已接受")])
    ensures AllPublic(Accept(t, command, owner, ids, now))
  {
    hide Public, Log, CreatedEvent;
  }

  lemma StartKeepsPublic(t: Tables, o: Id, row: Operation, freshRun: Id, now: Time)
    requires AllPublic(t)
    ensures AllPublic(StartAttempt(t, o, row, freshRun, now))
  {
    hide AllPublic, Public, Append, MaxAttempt, Attempts;
    var event := CreatedEvent(row.task, freshRun, now, "决策任务开始新的重试执行");
    SystemTextsPublic(event);
    var u := t.(runs := t.runs[freshRun := AgentRun(o, MaxAttempt(Attempts(t, o)) + 1, now)]);
    SamePublic(t, u);
    AppendKeepsPublic(u, freshRun, [event]);
  }

  lemma AnnounceKeepsPublic(t: Tables, row: Operation, run: Id, now: Time)
    requires AllPublic(t)
    ensures AllPublic(AnnounceRunning(t, row, run, now))
  {
    hide AllPublic, Public, Append, Log;
    var event := UnderstandingEvent(row, run, |Log(t, run)| + 1, now, "决策任务开始执行");
    SystemTextsPublic(event);
    AppendKeepsPublic(t, run, [event]);
  }

  lemma ClaimKeepsPublic(t: Tables, o: Id, worker: Id, lease: int, freshRun: Id, now: Time)
    requires AllPublic(t) && (o in t.operations ==> t.operations[o].execution in t.submissions)
    ensures AllPublic(ClaimNext(t, o, worker, lease, freshRun, now).0)
  {
    if o in t.operations {
      var row := t.operations[o];
      assert RowPublic(row);
      hide AllPublic, Public, StartAttempt, AnnounceRunning, WithRow, Claimable, Finished;
      StartKeepsPublic(t, o, row, freshRun, now);
      var run := if row.state == FailedRetryable then freshRun else row.run;
      var started := if row.state == FailedRetryable then StartAttempt(t, o, row, freshRun, now) else t;
      var claimed := ClaimedRow(row, run, worker, lease, now);
      RowWritten(started, o, claimed);
      AnnounceKeepsPublic(WithRow(started, o, claimed), row, run, now);
    }
  }

  lemma CancellationKeepsPublic(t: Tables, o: Id, input: CancelInput, request: ControlRequest, now: Time)
    requires AllPublic(t) && o in t.operations
    ensures AllPublic(CancelOperation(t, o, input, request, now))
  {
    hide AllPublic, Public, Append, WithRow, Log;
    var row := t.operations[o];
    var event := CancelEvent(row, |Log(t, row.run)| + 1, now);
    SystemTextsPublic(event);
    var requested := t.(requests := t.requests[input.request := request]);
    var stopped := CancelController(requested, row.run, input.cancellationId, [event], now);
    SamePublic(t, stopped);
    RowWritten(stopped, o, ReleasedRow(row, Cancelled, CancelMark, now));
    AppendKeepsPublic(WithRow(stopped, o, ReleasedRow(row, Cancelled, CancelMark, now)), row.run, [event]);
  }

  lemma RequestCancelKeepsPublic(t: Tables, input: CancelInput, selected: Option<Id>, now: Time)
    requires AllPublic(t) && Newest(t, input.task, input.owner, selected)
    ensures AllPublic(RequestCancel(t, input, selected, now).0)
  {
    if selected.Some? {
      SelectedExists(t, input.task, input.owner, selected);
      forall request ensures AllPublic(CancelOperation(t, selected.value, input, request, now)) {
        CancellationKeepsPublic(t, selected.value, input, request, now);
      }
    }
    hide Newest, SameRequest, CancelOperation, AllPublic;
  }

  lemma ControlKeepsPublic(t: Tables, q: Id, worker: Id, lease: int, now: Time)
    requires AllPublic(t) && ControlSelectable(t, q, now)
    ensures AllPublic(ClaimControl(t, q, worker, lease, now).0)
  {
    var r := t.requests[q];
    var row := t.operations[r.operation];
    assert RowPublic(row);
    hide AllPublic, Public, Append, WithRow, Log, RequestMatches, RecoveryPermission, ReceiptsOf, RowPublic;
    forall error ensures AllPublic(FailRequest(t, q, error, now)) {
      SamePublic(t, FailRequest(t, q, error, now));
    }
    hide FailRequest;
    forall n: nat, state ensures Public([ManualVerificationEvent(r, state, n, now)]) && Public([ResumeEvent(r, n, now)]) {
      SystemTextsPublic(ManualVerificationEvent(r, state, n, now));
      SystemTextsPublic(ResumeEvent(r, n, now));
    }
    GrantKeepsPublic(t, q, worker, lease, now);
    forall u: Tables, run, events | AllPublic(u) && Public(events) ensures AllPublic(Append(u, run, events)) {
      AppendKeepsPublic(u, run, events);
    }
    hide ManualVerificationEvent, ResumeEvent;
  }

  lemma GrantKeepsPublic(t: Tables, q: Id, worker: Id, lease: int, now: Time)
    requires AllPublic(t) && ControlSelectable(t, q, now)
    ensures var r := t.requests[q];
            var held := t.(requests := t.requests[q :=
              r.(state := RequestRunning, worker := Some(worker), leaseExpiresAt := Some(now + lease), updatedAt := now)]);
            AllPublic(WithRow(held, r.operation, t.operations[r.operation].(
              state := Running, worker := Some(worker), leaseExpiresAt := Some(now + lease), updatedAt := now)))
  {
    hide Public;
  }

  lemma ResumeKeepsPublic(t: Tables, input: ResumeInput, selected: Option<Id>, now: Time)
    requires AllPublic(t) && Newest(t, input.task, input.owner, selected)
    ensures AllPublic(RequestResume(t, input, selected, now).0)
  {
    hide Newest, SameRequest, ToTaskSnapshot, RowPublic, Public;
  }

  lemma StepKeepsPublic(t: Tables, s: Step, now: Time)
    requires AllPublic(t) && Enabled(t, s, now)
    ensures AllPublic(Apply(t, s, now))
  {
    hide AllPublic;
    if OnController(s) {
      ControllerStepEffect(t, s, now);
      SamePublic(t, Apply(t, s, now));
    } else {
      hide Complete, ClaimNext, ClaimControl, RequestCancel, RequestResume, Submit, Newest, ExistingFor, ControlSelectable, Publishable;
      match s
      case SubmitStep(command, owner, existing, ids) => SubmitKeepsPublic(t, command, owner, existing, ids, now);
      case CompleteStep(o, worker, outcome, control) => CompleteKeepsPublic(t, o, worker, outcome, control, now);
      case ClaimStep(o, worker, lease, freshRun) => ClaimKeepsPublic(t, o, worker, lease, freshRun, now);
      case ClaimControlStep(q, worker, lease) => ControlKeepsPublic(t, q, worker, lease, now);
      case RequestCancelStep(input, selected) => RequestCancelKeepsPublic(t, input, selected, now);
      case RequestResumeStep(input, selected) => ResumeKeepsPublic(t, input, selected, now);
      case PublishStep(message, delivered, delays) => SamePublic(t, Publish(t, message, delivered, delays, now));
    }
  }

  /**
   In every run, whatever the runtime and the workers report, each stored event and each event of a stored
   outcome has one of a fixed set of texts.
   */
  lemma {:induction false} StoredTextsArePublic(states: seq<Tables>, steps: seq<TimedStep>, i: nat)
    requires IsRun(states, steps) && i < |states|
    ensures AllPublic(states[i])
  {
    hide Apply, Enabled, RowPublic, Public;
    if i > 0 {
      StoredTextsArePublic(states, steps, i - 1);
      hide AllPublic;
      StepKeepsPublic(states[i - 1], steps[i - 1].step, steps[i - 1].now);
    }
  }

  // ---------------------------------------------------------------- which events are recorded

  /** `picked` are the events at these places, in order. */
  ghost predicate Picks(events: seq<RunEvent>, picked: seq<RunEvent>, places: seq<nat>) {
    && |places| == |picked|
    && (forall i, j :: 0 <= i < j < |places| ==> places[i] < places[j])
    && (forall i :: 0 <= i < |places| ==> places[i] < |events| && picked[i] == events[places[i]])
  }

  lemma PicksMore(events: seq<RunEvent>, picked: seq<RunEvent>, places: seq<nat>, first: bool) returns (more: seq<nat>)
    requires events != [] && Picks(events[1..], picked, places)
    ensures Picks(events, (if first then [events[0]] else []) + picked, more)
    ensures forall k: nat :: k in more <==> (if k == 0 then first else k - 1 in places)
  {
    var shifted := Shifted(places);
    more := (if first then [0] else []) + shifted;
  }

  lemma Shifted(places: seq<nat>) returns (shifted: seq<nat>)
    ensures |shifted| == |places| && forall i :: 0 <= i < |places| ==> shifted[i] == places[i] + 1
    ensures forall k: nat :: k in shifted <==> k > 0 && k - 1 in places
  {
    shifted := seq(|places|, i requires 0 <= i < |places| => places[i] + 1);
    forall k: nat | k > 0 && k - 1 in places ensures k in shifted {
      var i :| 0 <= i < |places| && places[i] == k - 1;
      assert shifted[i] == k;
    }
  }

  lemma {:induction false} UnseenAt(events: seq<RunEvent>, seen: set<TaskState>) returns (places: seq<nat>)
    ensures Picks(events, Unseen(events, seen), places)
    ensures forall k: nat :: k in places <==> k < |events| && events[k].taskState !in seen
  {
    if events == [] {
      places := [];
    } else {
      var rest := UnseenAt(events[1..], seen);
      var first := events[0].taskState !in seen;
      places := PicksMore(events, Unseen(events[1..], seen), rest, first);
      assert Unseen(events, seen) == (if first then [events[0]] else []) + Unseen(events[1..], seen);
    }
  }

  lemma {:induction false} CompletedAt(events: seq<RunEvent>) returns (places: seq<nat>)
    ensures Picks(events, CompletedOnly(events), places)
    ensures forall k: nat :: k in places <==> k < |events| && events[k].taskState == TaskCompleted
  {
    if events == [] {
      places := [];
    } else {
      var rest := CompletedAt(events[1..]);
      var first := events[0].taskState == TaskCompleted;
      places := PicksMore(events, CompletedOnly(events[1..]), rest, first);
      assert CompletedOnly(events) == (if first then [events[0]] else []) + CompletedOnly(events[1..]);
    }
  }

  /** The event as it is recorded: of the row's run, with its own type and state, and a public text. */
  ghost predicate RecordedAs(e: RunEvent, recorded: RunEvent, row: Operation) {
    && recorded.task == row.task && recorded.run == row.run
    && recorded.eventType == e.eventType && recorded.taskState == e.taskState
    && recorded.summary in PUBLIC_TEXTS && (e.summary in APPROVED_SUMMARIES ==> recorded.summary == e.summary)
  }

  /** The events at these places are recorded, in order. */
  ghost predicate Records(events: seq<RunEvent>, recorded: seq<RunEvent>, places: seq<nat>, row: Operation) {
    && |places| == |recorded|
    && (forall i, j :: 0 <= i < j < |places| ==> places[i] < places[j])
    && (forall i :: 0 <= i < |places| ==> places[i] < |events| && RecordedAs(events[places[i]], recorded[i], row))
  }

  lemma RestampRecords(e: RunEvent, row: Operation, sequence: nat, at: Time)
    ensures RecordedAs(e, Restamp(e, row, sequence, at), row)
  {
    PublicSummaryIsPublic(e);
    hide PUBLIC_TEXTS;
  }

  /**
   A pause records, when it is committed, exactly its events whose state the log does not have yet, in their
   order; when there are none, it records its pause once more, unless the log already ends in it with this text.
   */
  lemma PauseRecords(log: seq<RunEvent>, p: PausedOutcome, row: Operation, now: Time) returns (places: seq<nat>)
    requires ValidPaused(p)
    ensures var (added, last) := (PauseEvents(log, p, row, now), Last(p.runEvents));
            && Records(p.runEvents, added, places, row)
            && (forall i :: 0 <= i < |added| ==> added[i].occurredAt == now)
            && if exists k :: 0 <= k < |p.runEvents| && p.runEvents[k].taskState !in States(log)
               then forall k: nat :: k in places <==> k < |p.runEvents| && p.runEvents[k].taskState !in States(log)
               else if log != [] && Last(log).taskState == TaskPaused(p.kind) && Last(log).summary == PublicSummary(last)
               then places == [] else places == [|p.runEvents| - 1]
  {
    hide PUBLIC_TEXTS, APPROVED_SUMMARIES, States, RecordedAs, Restamp, PublicSummary;
    var unseen := Unseen(p.runEvents, States(log));
    places := UnseenAt(p.runEvents, States(log));
    PauseStamps(log, p, row, now);
    if unseen == [] {
      assert forall k: nat :: k < |p.runEvents| ==> k !in places;
      if PauseEvents(log, p, row, now) != [] {
        places := [|p.runEvents| - 1];
      }
    } else {
      assert places[0] in places;
    }
  }

  lemma PauseStamps(log: seq<RunEvent>, p: PausedOutcome, row: Operation, now: Time)
    requires ValidPaused(p)
    ensures var (added, unseen, last) := (PauseEvents(log, p, row, now), Unseen(p.runEvents, States(log)), Last(p.runEvents));
            && (forall i :: 0 <= i < |added| ==> added[i].occurredAt == now)
            && (if unseen != [] then |added| == |unseen| && forall i :: 0 <= i < |added| ==> RecordedAs(unseen[i], added[i], row)
                else if log != [] && Last(log).taskState == TaskPaused(p.kind) && Last(log).summary == PublicSummary(last) then added == []
                else |added| == 1 && RecordedAs(last, added[0], row))
  {
    forall e: RunEvent, n: nat ensures RecordedAs(e, Restamp(e, row, n, now), row) {
      RestampRecords(e, row, n, now);
    }
    hide PUBLIC_TEXTS, APPROVED_SUMMARIES, States, PublicSummary, Unseen;
  }

  /**
   A result records exactly its events whose state the log does not have yet, in their order, and after a
   pause only a completion; the last of them happened when it is committed, the others when they say.
   */
  lemma ResultRecords(log: seq<RunEvent>, events: seq<RunEvent>, row: Operation, now: Time) returns (places: seq<nat>)
    ensures var added := ResultEvents(log, events, row, now);
            && Records(events, added, places, row)
            && (forall i :: 0 <= i < |added| ==> added[i].occurredAt == if i == |added| - 1 then now else events[places[i]].occurredAt)
            && (forall k: nat :: k in places <==>
                  k < |events| && events[k].taskState !in States(log) && (HasPause(log) ==> events[k].taskState == TaskCompleted))
  {
    hide PUBLIC_TEXTS, APPROVED_SUMMARIES, States, HasPause, PublicSummary, Unseen, CompletedOnly, RecordedAs;
    var candidates := if HasPause(log) then CompletedOnly(events) else events;
    var unseen := Unseen(candidates, States(log));
    places := UnseenAt(candidates, States(log));
    if HasPause(log) {
      var completed := CompletedAt(events);
      places := PicksOfPicks(events, candidates, completed, unseen, places);
    }
    forall e: RunEvent, n: nat, at ensures RecordedAs(e, Restamp(e, row, n, at), row) {
      RestampRecords(e, row, n, at);
    }
    hide Restamp;
  }

  lemma PicksOfPicks(events: seq<RunEvent>, some: seq<RunEvent>, first: seq<nat>, picked: seq<RunEvent>, second: seq<nat>)
    returns (places: seq<nat>)
    requires Picks(events, some, first) && Picks(some, picked, second)
    ensures Picks(events, picked, places)
    ensures forall k: nat :: k in places <==> exists i :: 0 <= i < |first| && first[i] == k && i in second
  {
    places := seq(|second|, i requires 0 <= i < |second| => first[second[i]]);
    forall k: nat ensures k in places <==> exists i :: 0 <= i < |first| && first[i] == k && i in second {
      if i :| 0 <= i < |first| && first[i] == k && i in second {
        var j :| 0 <= j < |second| && second[j] == i;
        assert places[j] == k;
      }
    }
  }
}
