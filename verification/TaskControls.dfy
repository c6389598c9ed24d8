/** Runtime control requests: when one is granted, what a grant and a refusal leave, and how requests end. */
module TaskControls {
  import opened Wrappers
  import opened TaskTypes
  import opened TaskTransactions
  import opened TaskLogs
  import opened TaskInvariants
  import opened TaskSteps
  import opened TaskRuns
  import opened TaskTheorems
  import opened TaskCompletions
  import opened TaskFencing
  import opened TaskClaims

  // ---------------------------------------------------------------- what a control claim looks at

  /**
   The request still asks for the pause its operation is stored with: paused, or running again from it,
   on the snapshot and the run of the request, as its owner confirmed.
   */
  ghost predicate AsksForItsPause(t: Tables, q: Id)
    requires q in t.requests && t.requests[q].operation in t.operations
  {
    var (r, row) := (t.requests[q], t.operations[t.requests[q].operation]);
    && r.action.Resume? && r.action.confirmationOperation == q && r.action.confirmationUser == r.owner
    && (if r.state == RequestRunning then row.state == Running else row.state.Paused?)
    && row.payload.Stored? && row.payload.outcome.PausedWith?
    && row.payload.outcome.paused.snapshot.snapshotId == r.action.snapshotId
    && r.run == row.run && r.task == row.task
  }

  /** Every stored receipt of the snapshot belongs to its task, run and checkpoint. */
  ghost predicate ReceiptsBelong(t: Tables, s: RuntimeSnapshot, snapshotId: Id) {
    forall k :: k in t.receipts && t.receipts[k].snapshotId == snapshotId ==>
      && t.receipts[k].receipt.task == s.task && t.receipts[k].receipt.run == s.run
      && t.receipts[k].receipt.checkpoint == s.checkpoint
  }

  /** No effect of the snapshot may be half done. */
  ghost predicate EffectsSettled(t: Tables, snapshotId: Id) {
    forall k :: k in t.receipts && t.receipts[k].snapshotId == snapshotId ==>
      t.receipts[k].receipt.state != Started && t.receipts[k].receipt.state != Unknown
  }

  /** The stored facts allow the run to go on from the snapshot, as far as the snapshot itself goes. */
  ghost predicate FactsAllow(t: Tables, snapshotId: Id) {
    && snapshotId in t.facts
    && t.facts[snapshotId].taskState.TaskPaused? && t.facts[snapshotId].resumable
    && ReceiptsBelong(t, t.facts[snapshotId], snapshotId)
  }

  /** What the permission says, in terms of the stored receipts. */
  lemma PermissionFromReceipts(t: Tables, snapshotId: Id)
    requires snapshotId in t.facts
    ensures var p := RecoveryPermission(t.facts[snapshotId], ReceiptsOf(t, snapshotId));
            && (p == ResumeAllowed <==> FactsAllow(t, snapshotId) && EffectsSettled(t, snapshotId))
            && (p == ManualVerification <==> FactsAllow(t, snapshotId) && !EffectsSettled(t, snapshotId))
  {
    var (s, receipts) := (t.facts[snapshotId], ReceiptsOf(t, snapshotId));
    assert forall k :: k in t.receipts && t.receipts[k].snapshotId == snapshotId ==> t.receipts[k].receipt in receipts;
    assert ReceiptsBelong(t, s, snapshotId) <==> forall r :: r in receipts ==> BelongsTo(r, s);
    assert EffectsSettled(t, snapshotId) <==> forall r :: r in receipts ==> r.state != Started && r.state != Unknown;
  }

  lemma MatchesIff(t: Tables, q: Id)
    requires Inv(t) && q in t.requests && t.requests[q].operation in t.operations
    ensures RequestMatches(t.requests[q], q, t.operations[t.requests[q].operation]) <==> AsksForItsPause(t, q)
  {
    hide Inv, LogOk, StateFitsLog;
    InvAt(t, t.requests[q].operation);
  }

  // ---------------------------------------------------------------- grants

  /** The rows that a granted control claim leaves. */
  lemma GrantWrites(t: Tables, q: Id, worker: Id, lease: int, now: Time)
    requires ControlSelectable(t, q, now) && ClaimControl(t, q, worker, lease, now).1.ControlClaimed?
    ensures var (u, r, o) := (ClaimControl(t, q, worker, lease, now).0, ClaimControl(t, q, worker, lease, now).1, t.requests[q].operation);
            && o in u.operations
            && u.operations[o] == t.operations[o].(state := Running, worker := Some(worker), leaseExpiresAt := Some(now + lease), updatedAt := now)
            && q in u.requests
            && u.requests[q] == t.requests[q].(state := RequestRunning, worker := Some(worker),
                                               leaseExpiresAt := Some(now + lease), updatedAt := now)
            && t.requests[q].action.Resume? && t.requests[q].action.snapshotId in t.facts
            && r == ControlClaimed(q, o, t.requests[q].run, t.requests[q].owner, t.facts[t.requests[q].action.snapshotId],
                                   ReceiptsOf(t, t.requests[q].action.snapshotId))
            && u.submissions == t.submissions
  {
    hide Append, Log, RequestMatches, ReceiptsOf, RecoveryPermission, WithRow;
    AppendKeepsTheRest();
    AppendKeepsSubmissions();
    RowIsWritten(t.requests[q].operation);
    RowKeepsRequests();
  }

  lemma AppendKeepsSubmissions()
    ensures forall t, run, events :: Append(t, run, events).submissions == t.submissions
  {
    hide Log;
  }

  lemma RowKeepsRequests()
    ensures forall t, o, row :: WithRow(t, o, row).requests == t.requests && WithRow(t, o, row).submissions == t.submissions
  {
  }

  /** The answer of a grant: the request, the current run and the owner, and the stored facts. */
  ghost predicate AnswersWithFacts(t: Tables, q: Id, r: ControlClaim)
    requires q in t.requests && t.requests[q].operation in t.operations
  {
    && r.ControlClaimed? && r.request == q && r.operation == t.requests[q].operation
    && r.run == t.operations[t.requests[q].operation].run && r.owner == t.requests[q].owner
    && t.requests[q].action.Resume? && t.requests[q].action.snapshotId in t.facts
    && r.snapshot == t.facts[t.requests[q].action.snapshotId]
    && (forall k :: k in t.receipts && t.receipts[k].snapshotId == t.requests[q].action.snapshotId ==>
          t.receipts[k].receipt in r.receipts)
  }

  /** The log goes on with the announcement that the run is resumed, unless it was announced before. */
  ghost predicate Announces(log: seq<RunEvent>, full: seq<RunEvent>, before: bool, now: Time) {
    if before then full == log
    else |full| == |log| + 1 && full[..|log|] == log && full[|log|].taskState == Understanding && full[|log|].occurredAt == now
  }

  /** The request is held by the worker, and can be selected again exactly after the lease. */
  ghost predicate HeldRequest(u: Tables, q: Id, o: Id, worker: Id, end: Time) {
    Closable(u, q, o, worker) && forall x :: ControlSelectable(u, q, x) <==> x > end
  }

  /** What a grant gives: the lease of the operation and of the request alike, the stored facts, and an announced run. */
  ghost predicate Granted(t: Tables, q: Id, worker: Id, lease: int, now: Time)
    requires ControlSelectable(t, q, now)
  {
    var (u, r, o) := (ClaimControl(t, q, worker, lease, now).0, ClaimControl(t, q, worker, lease, now).1, t.requests[q].operation);
    && AnswersWithFacts(t, q, r)
    && LeasedUntil(u, o, worker, now + lease)
    && HeldRequest(u, q, o, worker, now + lease)
    && Announces(Log(t, t.operations[o].run), Log(u, t.operations[o].run), t.requests[q].state == RequestRunning, now)
  }

  // ---------------------------------------------------------------- refusals

  /** What a refusal leaves: a failed request with its reason, and every operation as it was. */
  ghost predicate Refused(t: Tables, q: Id, worker: Id, lease: int, now: Time, error: ControlError)
    requires ControlSelectable(t, q, now)
  {
    var (u, r) := ClaimControl(t, q, worker, lease, now);
    && r == ControlEmpty && u.operations == t.operations && u.submissions == t.submissions
    && q in u.requests && u.requests[q].state == RequestFailed(error)
    && u.requests[q].operation == t.requests[q].operation
    && u.requests[q].worker.None? && u.requests[q].leaseExpiresAt.None?
    && forall x :: !ControlSelectable(u, q, x)
  }

  /** The log has one event more, that a person must look at the effects. */
  ghost predicate AsksForVerification(t: Tables, u: Tables, run: Id, now: Time) {
    var (log, full) := (Log(t, run), Log(u, run));
    && |full| == |log| + 1 && full[..|log|] == log
    && full[|log|].taskState.TaskPaused? && full[|log|].occurredAt == now && full[|log|].summary == "副作用状态需要人工核验"
  }

  /** The branches of a control claim. */
  lemma ControlBranches(t: Tables, q: Id, worker: Id, lease: int, now: Time)
    requires ControlSelectable(t, q, now)
    ensures t.requests[q].action.Resume?
    ensures var (u, r) := ClaimControl(t, q, worker, lease, now);
            var id := t.requests[q].action.snapshotId;
            if !RequestMatches(t.requests[q], q, t.operations[t.requests[q].operation])
            then (u, r) == (FailRequest(t, q, SnapshotInvalid, now), ControlEmpty)
            else if id !in t.facts then (u, r) == (FailRequest(t, q, Unavailable, now), ControlEmpty)
            else match RecoveryPermission(t.facts[id], ReceiptsOf(t, id))
              case ResumeAllowed => r.ControlClaimed?
              case PermissionDenied => (u, r) == (FailRequest(t, q, ResumeDenied, now), ControlEmpty)
              case ManualVerification =>
                (u, r) == (Append(FailRequest(t, q, ResumeDenied, now), t.requests[q].run, [Verification(t, q, now)]), ControlEmpty)
  {
    hide RequestMatches, ReceiptsOf, RecoveryPermission, WithRow, Append, Log, FailRequest;
  }

  /** The event that asks a person to verify effects. */
  ghost function Verification(t: Tables, q: Id, now: Time): RunEvent
    requires q in t.requests && t.requests[q].action.Resume? && t.requests[q].action.snapshotId in t.facts
  {
    ManualVerificationEvent(t.requests[q], t.facts[t.requests[q].action.snapshotId].taskState, |Log(t, t.requests[q].run)| + 1, now)
  }

  lemma ControlCases(t: Tables, q: Id, worker: Id, lease: int, now: Time)
    requires Inv(t) && ControlSelectable(t, q, now)
    ensures t.requests[q].action.Resume?
    ensures var (u, r, id) := (ClaimControl(t, q, worker, lease, now).0, ClaimControl(t, q, worker, lease, now).1, t.requests[q].action.snapshotId);
            if !AsksForItsPause(t, q) then (u, r) == (FailRequest(t, q, SnapshotInvalid, now), ControlEmpty)
            else if id !in t.facts then (u, r) == (FailRequest(t, q, Unavailable, now), ControlEmpty)
            else if !FactsAllow(t, id) then (u, r) == (FailRequest(t, q, ResumeDenied, now), ControlEmpty)
            else if EffectsSettled(t, id) then r.ControlClaimed?
            else (u, r) == (Append(FailRequest(t, q, ResumeDenied, now), t.requests[q].run, [Verification(t, q, now)]), ControlEmpty)
  {
    hide Inv, ClaimControl, RequestMatches, ReceiptsOf, RecoveryPermission, Append, FailRequest, EffectsSettled, AsksForItsPause, Verification;
    MatchesIff(t, q);
    ControlBranches(t, q, worker, lease, now);
    var id := t.requests[q].action.snapshotId;
    if id in t.facts {
      PermissionFromReceipts(t, id);
    }
    hide FactsAllow;
  }

  /**
   A selected request is granted exactly when it still asks for the pause its operation is stored with, and
   the stored snapshot is paused and resumable, with all its receipts its own and none of them started or
   unknown.
   */
  lemma ControlGrantedIff(t: Tables, q: Id, worker: Id, lease: int, now: Time)
    requires Inv(t) && ControlSelectable(t, q, now)
    ensures t.requests[q].action.Resume?
    ensures var id := t.requests[q].action.snapshotId;
            Granted(t, q, worker, lease, now)
            <==> AsksForItsPause(t, q) && FactsAllow(t, id) && EffectsSettled(t, id)
  {
    hide Inv, ClaimControl, AsksForItsPause, EffectsSettled, Granted, ReceiptsBelong, FailRequest, Append, Verification;
    ControlCases(t, q, worker, lease, now);
    if ClaimControl(t, q, worker, lease, now).1.ControlClaimed? {
      GrantIsGranted(t, q, worker, lease, now);
    } else {
      GrantNeedsAnswer(t, q, worker, lease, now);
    }
  }

  lemma GrantNeedsAnswer(t: Tables, q: Id, worker: Id, lease: int, now: Time)
    requires ControlSelectable(t, q, now)
    ensures Granted(t, q, worker, lease, now) ==> ClaimControl(t, q, worker, lease, now).1.ControlClaimed?
  {
    hide ClaimControl, LeasedUntil, HeldRequest, Announces, ControlSelectable, Log;
  }

  lemma GrantNeeds(t: Tables, q: Id, worker: Id, lease: int, now: Time)
    requires Inv(t) && ControlSelectable(t, q, now) && ClaimControl(t, q, worker, lease, now).1.ControlClaimed?
    ensures AsksForItsPause(t, q) && t.requests[q].run == t.operations[t.requests[q].operation].run
  {
    assert q in t.requests && t.requests[q].operation in t.operations;
    AsksIfGranted(t, q, worker, lease, now);
    hide Inv, ClaimControl, AsksForItsPause, ControlSelectable;
    CurrentIfAsked(t, q);
  }

  lemma AsksIfGranted(t: Tables, q: Id, worker: Id, lease: int, now: Time)
    requires Inv(t) && ControlSelectable(t, q, now) && ClaimControl(t, q, worker, lease, now).1.ControlClaimed?
    ensures AsksForItsPause(t, q)
  {
    hide Inv, ClaimControl, AsksForItsPause, FactsAllow, EffectsSettled, ControlSelectable, FailRequest, Append, Verification;
    ControlCases(t, q, worker, lease, now);
  }

  lemma GrantIsGranted(t: Tables, q: Id, worker: Id, lease: int, now: Time)
    requires Inv(t) && ControlSelectable(t, q, now) && ClaimControl(t, q, worker, lease, now).1.ControlClaimed?
    ensures Granted(t, q, worker, lease, now)
  {
    assert q in t.requests && t.requests[q].operation in t.operations;
    hide Inv, ClaimControl, LeasedUntil, Log, AnswersWithFacts, HeldRequest, Announces, ControlSelectable, AsksForItsPause;
    GrantNeeds(t, q, worker, lease, now);
    GrantAnswers(t, q, worker, lease, now);
    GrantLeases(t, q, worker, lease, now);
    GrantLogs(t, q, worker, lease, now);
    GrantIsHeld(t, q, worker, lease, now);
  }

  lemma GrantAnswers(t: Tables, q: Id, worker: Id, lease: int, now: Time)
    requires Inv(t) && ControlSelectable(t, q, now) && ClaimControl(t, q, worker, lease, now).1.ControlClaimed?
    ensures AnswersWithFacts(t, q, ClaimControl(t, q, worker, lease, now).1)
  {
    assert q in t.requests && t.requests[q].operation in t.operations;
    hide Inv, ClaimControl, ReceiptsOf, ControlSelectable, AsksForItsPause;
    GrantNeeds(t, q, worker, lease, now);
    GrantWrites(t, q, worker, lease, now);
    ReceiptsAreAnswered(t, t.requests[q].action.snapshotId);
  }

  lemma ReceiptsAreAnswered(t: Tables, id: Id)
    ensures forall k :: k in t.receipts && t.receipts[k].snapshotId == id ==> t.receipts[k].receipt in ReceiptsOf(t, id)
  {
  }

  lemma GrantIsHeld(t: Tables, q: Id, worker: Id, lease: int, now: Time)
    requires ControlSelectable(t, q, now) && ClaimControl(t, q, worker, lease, now).1.ControlClaimed?
    ensures HeldRequest(ClaimControl(t, q, worker, lease, now).0, q, t.requests[q].operation, worker, now + lease)
  {
    GrantWrites(t, q, worker, lease, now);
    hide ClaimControl;
  }

  lemma GrantLeases(t: Tables, q: Id, worker: Id, lease: int, now: Time)
    requires ControlSelectable(t, q, now) && ClaimControl(t, q, worker, lease, now).1.ControlClaimed?
    ensures LeasedUntil(ClaimControl(t, q, worker, lease, now).0, t.requests[q].operation, worker, now + lease)
  {
    GrantWrites(t, q, worker, lease, now);
    hide ClaimControl, OutcomeFits, ControlSelectable;
  }

  lemma GrantLogs(t: Tables, q: Id, worker: Id, lease: int, now: Time)
    requires ControlSelectable(t, q, now) && ClaimControl(t, q, worker, lease, now).1.ControlClaimed?
    ensures Announces(Log(t, t.requests[q].run), Log(ClaimControl(t, q, worker, lease, now).0, t.requests[q].run),
                      t.requests[q].state == RequestRunning, now)
  {
    hide RequestMatches, ReceiptsOf, RecoveryPermission;
  }

  /**
   A request that is not granted has failed, with the reason, and is never selectable again; the operation
   is as it was, and the log grows exactly when a person must verify effects that may be half done.
   */
  lemma ControlRefusedOtherwise(t: Tables, q: Id, worker: Id, lease: int, now: Time)
    requires Inv(t) && ControlSelectable(t, q, now)
    ensures t.requests[q].action.Resume?
    ensures var (u, id, run) := (ClaimControl(t, q, worker, lease, now).0, t.requests[q].action.snapshotId, t.requests[q].run);
            var asks := AsksForItsPause(t, q);
            && (!asks ==> Refused(t, q, worker, lease, now, SnapshotInvalid) && u.events == t.events)
            && (asks && id !in t.facts ==> Refused(t, q, worker, lease, now, Unavailable) && u.events == t.events)
            && (asks && id in t.facts && !FactsAllow(t, id) ==> Refused(t, q, worker, lease, now, ResumeDenied) && u.events == t.events)
            && (asks && FactsAllow(t, id) && !EffectsSettled(t, id) ==>
                  && Refused(t, q, worker, lease, now, ResumeDenied)
                  && AsksForVerification(t, u, t.operations[t.requests[q].operation].run, now))
  {
    assert q in t.requests && t.requests[q].operation in t.operations;
    hide Inv, ClaimControl, AsksForItsPause, EffectsSettled, ControlSelectable, AsksForVerification, ReceiptsBelong, Refused;
    SelectedResumes(t, q, now);
    if AsksForItsPause(t, q) && FactsAllow(t, t.requests[q].action.snapshotId) {
      if !EffectsSettled(t, t.requests[q].action.snapshotId) {
        UnsettledIsRefused(t, q, worker, lease, now);
      }
    } else {
      UnfitIsRefused(t, q, worker, lease, now);
    }
  }

  lemma SelectedResumes(t: Tables, q: Id, now: Time)
    requires ControlSelectable(t, q, now)
    ensures t.requests[q].action.Resume?
  {
  }

  lemma UnsettledIsRefused(t: Tables, q: Id, worker: Id, lease: int, now: Time)
    requires Inv(t) && ControlSelectable(t, q, now) && AsksForItsPause(t, q)
    requires FactsAllow(t, t.requests[q].action.snapshotId) && !EffectsSettled(t, t.requests[q].action.snapshotId)
    ensures Refused(t, q, worker, lease, now, ResumeDenied)
    ensures AsksForVerification(t, ClaimControl(t, q, worker, lease, now).0, t.operations[t.requests[q].operation].run, now)
  {
    assert q in t.requests && t.requests[q].operation in t.operations;
    hide Inv, ClaimControl, AsksForItsPause, EffectsSettled, FailRequest, Append, Log, ControlSelectable, AsksForVerification;
    hide ReceiptsBelong, Refused, Verification;
    ControlCases(t, q, worker, lease, now);
    VerificationRefuses(t, q, worker, lease, now);
    CurrentIfAsked(t, q);
  }

  lemma UnfitIsRefused(t: Tables, q: Id, worker: Id, lease: int, now: Time)
    requires Inv(t) && ControlSelectable(t, q, now)
    requires t.requests[q].action.Resume? && !(AsksForItsPause(t, q) && FactsAllow(t, t.requests[q].action.snapshotId))
    ensures var (error, u) := (if !AsksForItsPause(t, q) then SnapshotInvalid
                               else if t.requests[q].action.snapshotId !in t.facts then Unavailable else ResumeDenied,
                               ClaimControl(t, q, worker, lease, now).0);
            Refused(t, q, worker, lease, now, error) && u.events == t.events
  {
    assert q in t.requests && t.requests[q].operation in t.operations;
    hide Inv, ClaimControl, AsksForItsPause, EffectsSettled, FailRequest, Append, Log, ControlSelectable;
    hide ReceiptsBelong, Refused, Verification;
    ControlCases(t, q, worker, lease, now);
    FailureRefuses(t, q, worker, lease, now);
  }

  lemma FailureRefuses(t: Tables, q: Id, worker: Id, lease: int, now: Time)
    requires ControlSelectable(t, q, now)
    ensures forall error :: ClaimControl(t, q, worker, lease, now) == (FailRequest(t, q, error, now), ControlEmpty) ==>
              Refused(t, q, worker, lease, now, error) && ClaimControl(t, q, worker, lease, now).0.events == t.events
  {
    assert q in t.requests;
    hide ClaimControl, FailRequest, ControlSelectable;
    FailureIsFinal(t, q, now);
  }

  lemma VerificationRefuses(t: Tables, q: Id, worker: Id, lease: int, now: Time)
    requires ControlSelectable(t, q, now) && t.requests[q].action.Resume? && FactsAllow(t, t.requests[q].action.snapshotId)
    requires ClaimControl(t, q, worker, lease, now)
             == (Append(FailRequest(t, q, ResumeDenied, now), t.requests[q].run, [Verification(t, q, now)]), ControlEmpty)
    ensures Refused(t, q, worker, lease, now, ResumeDenied)
    ensures AsksForVerification(t, ClaimControl(t, q, worker, lease, now).0, t.requests[q].run, now)
  {
    assert q in t.requests;
    hide ClaimControl, FailRequest, ControlSelectable, Append, AsksForVerification, ReceiptsBelong;
    FailureIsFinal(t, q, now);
    VerificationIsLogged(t, q, Verification(t, q, now), now);
  }

  lemma CurrentIfAsked(t: Tables, q: Id)
    requires q in t.requests && t.requests[q].operation in t.operations && AsksForItsPause(t, q)
    ensures t.requests[q].run == t.operations[t.requests[q].operation].run
  {
  }

  lemma FailureIsFinal(t: Tables, q: Id, now: Time)
    requires q in t.requests
    ensures forall error :: var u := FailRequest(t, q, error, now);
              && u.operations == t.operations && u.submissions == t.submissions && u.events == t.events
              && q in u.requests && u.requests[q].state == RequestFailed(error)
              && u.requests[q].operation == t.requests[q].operation
              && u.requests[q].worker.None? && u.requests[q].leaseExpiresAt.None?
              && forall x :: !ControlSelectable(u, q, x)
  {
  }

  lemma VerificationIsLogged(t: Tables, q: Id, event: RunEvent, now: Time)
    requires q in t.requests && event.taskState.TaskPaused? && event.occurredAt == now && event.summary == "副作用状态需要人工核验"
    ensures var (f, u) := (FailRequest(t, q, ResumeDenied, now), Append(FailRequest(t, q, ResumeDenied, now), t.requests[q].run, [event]));
            && AsksForVerification(t, u, t.requests[q].run, now)
            && u.operations == f.operations && u.requests == f.requests && u.submissions == f.submissions
            && forall x :: ControlSelectable(u, q, x) <==> ControlSelectable(f, q, x)
  {
  }

  // ---------------------------------------------------------------- requests end once

  ghost predicate RequestEnded(r: ControlRequest) {
    r.state == RequestCompleted || r.state.RequestFailed?
  }

  /** Only the claim and the completion of a request write its row again, and neither once it has ended. */
  lemma StepKeepsEnded(t: Tables, s: Step, now: Time, q: Id)
    requires Enabled(t, s, now) && q in t.requests && RequestEnded(t.requests[q])
    ensures q in Apply(t, s, now).requests && Apply(t, s, now).requests[q] == t.requests[q]
  {
    if OnController(s) {
      ControllerStepEffect(t, s, now);
      hide Apply, Enabled;
    } else {
      hide ToTaskSnapshot, Newest, ExistingFor, SameRequest, CancelOperation, ClaimNext, Complete, ClaimControl;
      hide SaveFacts, RecordRunning, ResumeController, FinishController, CancelRuntime;
      match s
      case ClaimStep(o, worker, lease, freshRun) => ClaimKeepsRequests(t, o, worker, lease, freshRun, now);
      case CompleteStep(o, worker, outcome, control) => CompleteKeepsEnded(t, o, worker, outcome, control, now, q);
      case RequestCancelStep(input, selected) =>
        if selected.Some? {
          SelectedExists(t, input.task, input.owner, selected);
          CancelKeepsOthers(t, selected.value, input, now, q);
        }
      case ClaimControlStep(request, worker, lease) => ControlKeepsOthers(t, request, worker, lease, now, q);
      case SubmitStep(_, _, _, _) =>
      case RequestResumeStep(_, _) =>
      case PublishStep(_, _, _) =>
    }
  }

  lemma ClaimKeepsRequests(t: Tables, o: Id, worker: Id, lease: int, freshRun: Id, now: Time)
    requires Enabled(t, ClaimStep(o, worker, lease, freshRun), now)
    ensures ClaimNext(t, o, worker, lease, freshRun, now).0.requests == t.requests
  {
    AppendKeepsTheRest();
    hide Append, Log, MaxAttempt, Attempts;
  }

  lemma CompleteKeepsEnded(t: Tables, o: Id, worker: Id, outcome: Outcome, control: Option<Id>, now: Time, q: Id)
    requires q in t.requests && RequestEnded(t.requests[q])
    ensures var u := Complete(t, o, worker, outcome, control, now).0; q in u.requests && u.requests[q] == t.requests[q]
  {
    hide Record, Decodes, OutcomeFits, OutcomeControlError;
    if o in t.operations && !Record(t, o, outcome, now).1.CompleteFailed? {
      RecordEffect(t, o, outcome, now);
    }
  }

  lemma CancelKeepsOthers(t: Tables, o: Id, input: CancelInput, now: Time, q: Id)
    requires o in t.operations && q in t.requests
    ensures forall request :: input.request != q ==>
              var u := CancelOperation(t, o, input, request, now); q in u.requests && u.requests[q] == t.requests[q]
  {
    hide CancelOperation;
    forall request | input.request != q
      ensures var u := CancelOperation(t, o, input, request, now); q in u.requests && u.requests[q] == t.requests[q]
    {
      CancelEffect(t, o, input, request, now);
    }
  }

  lemma ControlKeepsOthers(t: Tables, request: Id, worker: Id, lease: int, now: Time, q: Id)
    requires ControlSelectable(t, request, now) && q in t.requests && RequestEnded(t.requests[q])
    ensures var u := ClaimControl(t, request, worker, lease, now).0; q in u.requests && u.requests[q] == t.requests[q]
  {
    assert request in t.requests && request != q;
    hide Append, Log, RequestMatches, ReceiptsOf, RecoveryPermission, WithRow, FailRequest;
    AppendKeepsTheRest();
    FailureKeepsOthers(t, request, q, now);
    if ClaimControl(t, request, worker, lease, now).1.ControlClaimed? {
      GrantKeepsOthers(t, request, worker, lease, now, q);
    }
  }

  lemma GrantKeepsOthers(t: Tables, request: Id, worker: Id, lease: int, now: Time, q: Id)
    requires ControlSelectable(t, request, now) && q in t.requests && q != request
    requires ClaimControl(t, request, worker, lease, now).1.ControlClaimed?
    ensures var u := ClaimControl(t, request, worker, lease, now).0; q in u.requests && u.requests[q] == t.requests[q]
  {
    AppendKeepsTheRest();
    RowKeepsRequests();
    hide Append, Log, RequestMatches, ReceiptsOf, RecoveryPermission, WithRow, FailRequest;
  }

  lemma FailureKeepsOthers(t: Tables, request: Id, q: Id, now: Time)
    requires request in t.requests && q in t.requests && q != request
    ensures forall error :: var u := FailRequest(t, request, error, now); q in u.requests && u.requests[q] == t.requests[q]
  {
  }

  /** In every run a request that has completed or failed stays as it is, and is never selectable again. */
  lemma {:induction false} EndedRequestStays(states: seq<Tables>, steps: seq<TimedStep>, i: nat, j: nat, q: Id, now: Time)
    requires IsRun(states, steps) && i <= j < |states| && q in states[i].requests && RequestEnded(states[i].requests[q])
    ensures q in states[j].requests && states[j].requests[q] == states[i].requests[q]
    ensures !ControlSelectable(states[j], q, now)
    decreases j
  {
    hide Apply, Enabled;
    if i < j {
      EndedRequestStays(states, steps, i, j - 1, q, now);
      StepKeepsEnded(states[j - 1], steps[j - 1].step, steps[j - 1].now, q);
    }
  }

  /**
   A committed completion that names a request ends it: a result, or a partial outcome without an error of
   its own, completes it, and any other outcome fails it, with the outcome's own error if it has one.
   */
  lemma CompletionEndsRequest(t: Tables, o: Id, worker: Id, outcome: Outcome, q: Id, now: Time)
    requires IsCommit(Complete(t, o, worker, outcome, Some(q), now).1)
    ensures var u := Complete(t, o, worker, outcome, Some(q), now).0;
            && q in u.requests && u.requests[q].worker.None? && u.requests[q].leaseExpiresAt.None?
            && (u.requests[q].state == RequestCompleted <==>
                  outcome.ResultWith? || (outcome.Explicit? && outcome.state == Part && outcome.controlError.None?))
            && (outcome.Explicit? && outcome.controlError.Some? ==> u.requests[q].state == RequestFailed(outcome.controlError.value))
            && (outcome.Explicit? && outcome.state != Part && outcome.controlError.None? ==> u.requests[q].state == RequestFailed(RuntimeFailure))
            && (outcome.PausedWith? ==> u.requests[q].state == RequestFailed(ResumeDenied))
  {
    hide Record, Decodes, Completable;
  }

  /**
   Asking again for a request that is stored, for the current run of its operation, changes nothing: the
   same content is answered with the stored request, and any other content is a conflict.
   */
  lemma RequestsAreIdempotent(t: Tables, resume: ResumeInput, cancel: CancelInput, o: Id, now: Time)
    requires Newest(t, resume.task, resume.owner, Some(o)) && Newest(t, cancel.task, cancel.owner, Some(o))
    requires resume.request in t.requests && cancel.request in t.requests
    requires resume.confirmationOperation == resume.request && resume.confirmationUser == resume.owner
    ensures o in t.operations
    ensures var (u, answer, stored) := (RequestResume(t, resume, Some(o), now).0, RequestResume(t, resume, Some(o), now).1, t.requests[resume.request]);
            && u == t && (answer == Ok(Some(stored)) || answer == Err(IdempotencyConflict))
            && (answer.Ok? <==>
                  && stored.operation == o && stored.run == t.operations[o].run && stored.task == resume.task && stored.owner == resume.owner
                  && stored.correlation == resume.correlation && stored.action.Resume? && stored.action.snapshotId == resume.snapshotId
                  && stored.action.confirmationOperation == resume.request && stored.action.confirmationUser == resume.owner)
    ensures var (u, answer, stored) := (RequestCancel(t, cancel, Some(o), now).0, RequestCancel(t, cancel, Some(o), now).1, t.requests[cancel.request]);
            && u == t && (answer == Ok(Some(stored)) || answer == Err(IdempotencyConflict))
            && (answer.Ok? <==>
                  && stored.operation == o && stored.run == t.operations[o].run && stored.task == cancel.task && stored.owner == cancel.owner
                  && stored.correlation == cancel.correlation && stored.action.Cancel? && stored.action.cancellationId == cancel.cancellationId)
  {
    SelectedExists(t, resume.task, resume.owner, Some(o));
    hide Newest, CancelOperation, ToTaskSnapshot;
  }
}
