/** Runs of the whole database: any transactions, by any workers, in any order. */
module TaskRuns {
  import opened Wrappers
  import opened Text
  import opened TaskTypes
  import opened TaskTransactions
  import opened TaskLogs
  import opened TaskInvariants
  import opened TaskSteps
  import CanonicalJson

  datatype Step =
    | SubmitStep(command: Command, owner: Id, existing: Option<Id>, ids: SubmitIds)
    | ClaimStep(operation: Id, worker: Id, lease: int, freshRun: Id)
    | CompleteStep(operation: Id, worker: Id, outcome: Outcome, control: Option<Id>)
    | RequestResumeStep(resume: ResumeInput, selected: Option<Id>)
    | RequestCancelStep(cancel: CancelInput, selected: Option<Id>)
    | ClaimControlStep(request: Id, worker: Id, lease: int)
    | SaveFactsStep(snapshot: RuntimeSnapshot, receipts: seq<EffectReceipt>, objectsPresent: bool)
    | RecordRunningStep(run: Id, controllerId: Id, lease: int)
    | ResumeControllerStep(run: Id, snapshotId: Id, controllerId: Id, lease: int)
    | FinishControllerStep(run: Id, controllerId: Id, expected: Option<Id>, next: Option<Id>,
                           state: ControllerState, events: seq<RunEvent>)
    | CancelRuntimeStep(run: Id, cancellationId: Id, events: seq<RunEvent>)
    | PublishStep(message: Id, delivered: bool, delays: Delays)

  /** The rows the step names are ones its queries can have returned. */
  ghost predicate Enabled(t: Tables, s: Step, now: Time) {
    match s
    case SubmitStep(command, _, existing, _) => ExistingFor(t, command.execution, existing)
    case ClaimStep(o, _, _, _) => o in t.operations ==> t.operations[o].execution in t.submissions
    case RequestResumeStep(input, selected) => Newest(t, input.task, input.owner, selected)
    case RequestCancelStep(input, selected) => Newest(t, input.task, input.owner, selected)
    case ClaimControlStep(request, _, _) => ControlSelectable(t, request, now)
    case PublishStep(message, _, _) => Publishable(t, message, now)
    case _ => true
  }

  ghost function Apply(t: Tables, s: Step, now: Time): Tables
    requires Enabled(t, s, now)
  {
    match s
    case SubmitStep(command, owner, existing, ids) => Submit(t, command, owner, existing, ids, now).0
    case ClaimStep(o, worker, lease, freshRun) => ClaimNext(t, o, worker, lease, freshRun, now).0
    case CompleteStep(o, worker, outcome, control) => Complete(t, o, worker, outcome, control, now).0
    case RequestResumeStep(input, selected) => RequestResume(t, input, selected, now).0
    case RequestCancelStep(input, selected) => RequestCancel(t, input, selected, now).0
    case ClaimControlStep(request, worker, lease) => ClaimControl(t, request, worker, lease, now).0
    case SaveFactsStep(snapshot, receipts, present) => SaveFacts(t, snapshot, receipts, present, now).0
    case RecordRunningStep(run, id, lease) => RecordRunning(t, run, id, lease, now).0
    case ResumeControllerStep(run, snapshotId, id, lease) => ResumeController(t, run, snapshotId, id, lease, now).0
    case FinishControllerStep(run, id, expected, next, state, events) =>
      FinishController(t, run, id, expected, next, state, events, now).0
    case CancelRuntimeStep(run, cancellationId, events) => CancelRuntime(t, run, cancellationId, events, now).0
    case PublishStep(message, delivered, delays) => Publish(t, message, delivered, delays, now)
  }

  datatype TimedStep = At(step: Step, now: Time)

  /** A run from the empty database; `states[i]` is the database before the i-th step. */
  ghost predicate IsRun(states: seq<Tables>, steps: seq<TimedStep>) {
    && |states| == |steps| + 1
    && states[0] == EMPTY
    && forall i :: 0 <= i < |steps| ==>
         Enabled(states[i], steps[i].step, steps[i].now)
         && states[i + 1] == Apply(states[i], steps[i].step, steps[i].now)
  }

  // ---------------------------------------------------------------- every step

  /** The transactions that write the controller table alone, and recovery facts. */
  ghost predicate OnController(s: Step) {
    s.SaveFactsStep? || s.RecordRunningStep? || s.ResumeControllerStep? || s.FinishControllerStep? || s.CancelRuntimeStep?
  }

  ghost predicate OnlyControllers(t: Tables, u: Tables) {
    && u.operations == t.operations && u.runs == t.runs && u.submissions == t.submissions && u.events == t.events
    && u.requests == t.requests && u.outbox == t.outbox
    && CancelledStay(t, u)
  }

  lemma WithControllerEffect(t: Tables, run: Id)
    ensures OnlyControllers(t, t)
    ensures forall c: Controller :: (CancelledController(t, run) ==> c.state == ControllerCancelled)
                        ==> OnlyControllers(t, WithController(t, run, c))
  {
  }

  lemma SavedEffect(t: Tables, u: Tables, facts: map<Id, RuntimeSnapshot>, receipts: map<Id, StoredReceipt>)
    requires OnlyControllers(t.(facts := facts, receipts := receipts), u)
    ensures OnlyControllers(t, u)
  {
  }

  lemma SaveFactsEffect(t: Tables, snapshot: RuntimeSnapshot, receipts: seq<EffectReceipt>, present: bool, now: Time)
    ensures OnlyControllers(t, SaveFacts(t, snapshot, receipts, present, now).0)
  {
    hide AddReceipts, ReceiptsOf, ToSet, ControllerStateOf, BelongsTo, WithController, OnlyControllers;
    var facts := t.facts[snapshot.snapshotId := snapshot];
    var stored := AddReceipts(t.receipts, snapshot.snapshotId, receipts);
    WithControllerEffect(t, snapshot.run);
    WithControllerEffect(t.(facts := facts, receipts := stored), snapshot.run);
    var u := SaveFacts(t, snapshot, receipts, present, now).0;
    if u != t {
      SavedEffect(t, u, facts, stored);
    }
  }

  lemma ControllerStepEffect(t: Tables, s: Step, now: Time)
    requires Enabled(t, s, now) && OnController(s)
    ensures OnlyControllers(t, Apply(t, s, now))
  {
    hide WithController, OnlyControllers, SaveFacts, Enabled;
    match s
    case SaveFactsStep(snapshot, receipts, present) => SaveFactsEffect(t, snapshot, receipts, present, now);
    case RecordRunningStep(run, _, _) => WithControllerEffect(t, run);
    case ResumeControllerStep(run, _, _, _) => WithControllerEffect(t, run);
    case FinishControllerStep(run, _, _, _, _, _) => WithControllerEffect(t, run);
    case CancelRuntimeStep(run, cancellationId, events) =>
      WithControllerEffect(t, run);
      CancelIsWrite(t, run, cancellationId, events, now);
  }

  lemma CancelIsWrite(t: Tables, run: Id, cancellationId: Id, events: seq<RunEvent>, now: Time)
    ensures exists c: Controller :: c.state == ControllerCancelled
              && CancelController(t, run, cancellationId, events, now) == WithController(t, run, c)
  {
    var u := CancelController(t, run, cancellationId, events, now);
    assert u == WithController(t, run, u.controllers[run]);
  }

  lemma ControllerStepAdvances(t: Tables, s: Step, now: Time)
    requires Inv(t) && Enabled(t, s, now) && OnController(s)
    ensures Advances(t, Apply(t, s, now))
  {
    hide Inv, Evolves, Apply;
    ControllerStepEffect(t, s, now);
    ControllersKeepInv(t, Apply(t, s, now));
  }

  lemma StepAdvances(t: Tables, s: Step, now: Time)
    requires Inv(t) && Enabled(t, s, now)
    ensures Advances(t, Apply(t, s, now))
  {
    hide Inv, Evolves, Advances, Submit, ClaimNext, Complete, RequestResume, RequestCancel, ClaimControl, Publish;
    hide SaveFacts, RecordRunning, ResumeController, FinishController, CancelRuntime;
    match s
    case SubmitStep(command, owner, existing, ids) => SubmitKeepsInv(t, command, owner, existing, ids, now);
    case ClaimStep(o, worker, lease, freshRun) => ClaimKeepsInv(t, o, worker, lease, freshRun, now);
    case CompleteStep(o, worker, outcome, control) => CompleteKeepsInv(t, o, worker, outcome, control, now);
    case RequestResumeStep(input, selected) => ResumeRequestKeepsInv(t, input, selected, now);
    case RequestCancelStep(input, selected) => CancelKeepsInv(t, input, selected, now);
    case ClaimControlStep(request, worker, lease) => ControlClaimKeepsInv(t, request, worker, lease, now);
    case PublishStep(message, delivered, delays) => PublishKeepsInv(t, message, delivered, delays, now);
    case _ => ControllerStepAdvances(t, s, now);
  }

  /** Every reachable database is orderly, and later ones evolve from earlier ones. */
  lemma {:induction false} RunAdvances(states: seq<Tables>, steps: seq<TimedStep>, i: nat, j: nat)
    requires IsRun(states, steps) && i <= j < |states|
    ensures Inv(states[i]) && Advances(states[i], states[j])
    decreases j
  {
    hide Inv, Evolves, Apply, Enabled;
    if j == 0 {
      EmptyIsOrderly();
      AdvancesSelf(EMPTY);
    } else {
      RunAdvances(states, steps, j - 1, j - 1);
      StepAdvances(states[j - 1], steps[j - 1].step, steps[j - 1].now);
      if i < j {
        RunAdvances(states, steps, i, j - 1);
        AdvancesTransitive(states[i], states[j - 1], states[j]);
      } else {
        AdvancesSelf(states[j]);
      }
    }
  }

  lemma EmptyIsOrderly()
    ensures Inv(EMPTY)
  {
  }

  // ---------------------------------------------------------------- which tables a step leaves alone

  lemma AppendKeepsTheRest()
    ensures forall t, run, events :: var u := Append(t, run, events);
              u.operations == t.operations && u.requests == t.requests && u.controllers == t.controllers && u.outbox == t.outbox
  {
    hide Log;
  }

  lemma ClaimKeepsTheRest(t: Tables, o: Id, worker: Id, lease: int, freshRun: Id, now: Time)
    requires Enabled(t, ClaimStep(o, worker, lease, freshRun), now)
    ensures var u := ClaimNext(t, o, worker, lease, freshRun, now).0; u.controllers == t.controllers && u.outbox == t.outbox
  {
    AppendKeepsTheRest();
    hide Append, Log, MaxAttempt, Attempts;
  }

  lemma CompleteKeepsTheRest(t: Tables, o: Id, worker: Id, outcome: Outcome, control: Option<Id>, now: Time)
    ensures var u := Complete(t, o, worker, outcome, control, now).0; u.controllers == t.controllers && u.outbox == t.outbox
  {
    if o in t.operations {
      RecordKeepsTheRest(t, o, outcome, now);
    }
    hide Record, Decodes, Completable;
  }

  lemma RecordKeepsTheRest(t: Tables, o: Id, outcome: Outcome, now: Time)
    requires o in t.operations
    ensures var u := Record(t, o, outcome, now).0; u.controllers == t.controllers && u.outbox == t.outbox
  {
    AppendKeepsTheRest();
    hide ValidPaused, ValidResult, StoredResult, StoredPause, PauseEvents, ResultEvents, Append, Log, ToTaskSnapshot, ReleasedRow;
  }

  lemma ControlKeepsTheRest(t: Tables, q: Id, worker: Id, lease: int, now: Time)
    requires ControlSelectable(t, q, now)
    ensures var u := ClaimControl(t, q, worker, lease, now).0; u.controllers == t.controllers && u.outbox == t.outbox
  {
    AppendKeepsTheRest();
    RowsKeepTheRest();
    hide Append, Log, RequestMatches, ReceiptsOf, RecoveryPermission, FailRequest, WithRow;
  }

  lemma RowsKeepTheRest()
    ensures forall t, o, row :: var u := WithRow(t, o, row); u.controllers == t.controllers && u.outbox == t.outbox
    ensures forall t: Tables, q, error, now :: q in t.requests ==>
              var u := FailRequest(t, q, error, now); u.controllers == t.controllers && u.outbox == t.outbox
  {
  }

  /** Only the controller transactions and cancellation write controllers; only submission and publishing write the outbox. */
  lemma StepKeepsTheRest(t: Tables, s: Step, now: Time)
    requires Enabled(t, s, now)
    ensures !OnController(s) && !s.RequestCancelStep? ==> Apply(t, s, now).controllers == t.controllers
    ensures !s.SubmitStep? && !s.PublishStep? ==> Apply(t, s, now).outbox == t.outbox
  {
    hide ClaimNext, Complete, ClaimControl, SaveFacts, RecordRunning, ResumeController, FinishController, CancelRuntime;
    hide Newest, ExistingFor, CancelOperation, ToTaskSnapshot, SameRequest;
    match s
    case ClaimStep(o, worker, lease, freshRun) => ClaimKeepsTheRest(t, o, worker, lease, freshRun, now);
    case CompleteStep(o, worker, outcome, control) => CompleteKeepsTheRest(t, o, worker, outcome, control, now);
    case ClaimControlStep(request, worker, lease) => ControlKeepsTheRest(t, request, worker, lease, now);
    case RequestCancelStep(input, selected) =>
      if selected.Some? {
        SelectedExists(t, input.task, input.owner, selected);
        CancelsKeepOutbox(t, selected.value, input, now);
      }
    case SubmitStep(_, _, _, _) =>
    case RequestResumeStep(_, _) =>
    case PublishStep(_, _, _) =>
    case _ => ControllerStepEffect(t, s, now);
  }

  lemma CancelsKeepOutbox(t: Tables, o: Id, input: CancelInput, now: Time)
    requires o in t.operations
    ensures forall request :: CancelOperation(t, o, input, request, now).outbox == t.outbox
  {
    forall request ensures CancelOperation(t, o, input, request, now).outbox == t.outbox {
      CancelEffect(t, o, input, request, now);
    }
  }
}
