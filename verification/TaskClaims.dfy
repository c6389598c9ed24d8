/** What a granted claim is worth: to whom, for which run and command, and until when. */
module TaskClaims {
  import opened Wrappers
  import opened TaskTypes
  import opened TaskTransactions
  import opened TaskInvariants
  import opened TaskSteps
  import opened TaskRuns
  import opened TaskTheorems
  import opened TaskFencing

  /** The row a claim leaves, and who it says so to. */
  lemma ClaimWrites(t: Tables, o: Id, worker: Id, lease: int, freshRun: Id, now: Time)
    requires Enabled(t, ClaimStep(o, worker, lease, freshRun), now)
    ensures var (u, r) := ClaimNext(t, o, worker, lease, freshRun, now);
            r.Claimed? ==>
              && o in t.operations && o in u.operations && u.operations == t.operations[o := u.operations[o]]
              && u.operations[o] == ClaimedRow(t.operations[o], r.run, worker, lease, now)
              && r.operation == o && (t.operations[o].state != FailedRetryable ==> r.run == t.operations[o].run)
              && (t.operations[o].state == FailedRetryable ==> r.run == freshRun && freshRun !in t.runs)
              && r.owner == t.submissions[t.operations[o].execution].owner
              && r.command == t.submissions[t.operations[o].execution].command
              && u.submissions == t.submissions
  {
    hide ClaimedRow, Claimable, Finished;
    if o in t.operations {
      StartKeepsOperations(t, o, t.operations[o], freshRun, now);
      StartKeepsSubmissions(t, o, t.operations[o], freshRun, now);
      AnnounceKeepsOperations(t.operations[o], now);
      AnnounceKeepsSubmissions(t.operations[o], now);
      RowIsWritten(o);
    }
    hide StartAttempt, AnnounceRunning, WithRow;
  }

  lemma StartKeepsSubmissions(t: Tables, o: Id, row: Operation, freshRun: Id, now: Time)
    ensures StartAttempt(t, o, row, freshRun, now).submissions == t.submissions
  {
    hide Log, MaxAttempt, Attempts;
  }

  lemma AnnounceKeepsSubmissions(row: Operation, now: Time)
    ensures forall t, run :: AnnounceRunning(t, row, run, now).submissions == t.submissions
    ensures forall t, o, r :: WithRow(t, o, r).submissions == t.submissions
  {
    hide Log;
  }

  /**
   A granted claim at `now` holds for the whole lease and no longer: until `now + lease` every outcome
   that fits the run can be completed by the claiming worker and by nobody else, and from then on, and
   not before, the operation can be claimed again.
   */
  ghost predicate LeasedUntil(t: Tables, o: Id, worker: Id, end: Time) {
    && o in t.operations
    && (forall outcome: Outcome, w, x :: OutcomeFits(outcome, t.operations[o]) ==>
          (Completable(t, o, w, outcome, x) <==> w == worker && x <= end))
    && (forall x :: Claimable(t.operations[o], x) <==> x > end)
  }

  lemma ClaimIsLeased(t: Tables, o: Id, worker: Id, lease: int, freshRun: Id, now: Time)
    requires Enabled(t, ClaimStep(o, worker, lease, freshRun), now)
    requires ClaimNext(t, o, worker, lease, freshRun, now).1.Claimed?
    ensures LeasedUntil(ClaimNext(t, o, worker, lease, freshRun, now).0, o, worker, now + lease)
    ensures o in t.operations
    ensures var (u, r) := ClaimNext(t, o, worker, lease, freshRun, now);
            && r.run == (if t.operations[o].state == FailedRetryable then freshRun else t.operations[o].run)
            && u.operations == t.operations[o := t.operations[o].(
                 run := r.run, state := Running, worker := Some(worker), leaseExpiresAt := Some(now + lease), updatedAt := now)]
  {
    ClaimWrites(t, o, worker, lease, freshRun, now);
    hide ClaimNext, OutcomeFits;
  }

  /** A claim is granted exactly for a row that waits for one, and otherwise changes nothing. */
  lemma ClaimGrantedIff(t: Tables, o: Id, worker: Id, lease: int, freshRun: Id, now: Time)
    requires Inv(t)
    ensures Enabled(t, ClaimStep(o, worker, lease, freshRun), now)
    ensures var (u, r) := ClaimNext(t, o, worker, lease, freshRun, now);
            && (o !in t.operations ==> r == UnknownOperation)
            && (o in t.operations ==>
                  var row := t.operations[o];
                  && (r.Claimed? <==>
                        || row.state == Accepted
                        || (row.state == FailedRetryable && freshRun !in t.runs)
                        || (row.state == Running && row.leaseExpiresAt.Some? && row.leaseExpiresAt.value < now))
                  && (r == AlreadyFinished <==> row.state in {Completed, FailedFinal, Partial, Cancelled})
                  && (r == Deferred <==>
                        row.state.Paused? || (row.state == Running && row.leaseExpiresAt.Some? && now <= row.leaseExpiresAt.value)))
            && (!r.Claimed? ==> u == t)
  {
    hide Inv, StartAttempt, AnnounceRunning, PayloadOk, StateFitsLog;
    if o in t.operations {
      InvAt(t, o);
    }
  }

  // ---------------------------------------------------------------- while nobody else may touch the operation

  /** The step is a cancellation, a control claim, or a completion by its worker, of operation `o`. */
  ghost predicate MayEnd(t: Tables, s: Step, o: Id, worker: Id) {
    || (s.RequestCancelStep? && s.selected == Some(o))
    || (s.ClaimControlStep? && s.request in t.requests && t.requests[s.request].operation == o)
    || (s.CompleteStep? && s.operation == o && s.worker == worker)
  }

  /** Any other step leaves the row alone while the lease lasts, other claims and completions included. */
  lemma LeaseShields(t: Tables, s: Step, now: Time, o: Id, worker: Id, end: Time)
    requires Enabled(t, s, now) && LeasedUntil(t, o, worker, end) && t.operations[o].state == Running
    requires t.operations[o].worker == Some(worker) && now <= end && !MayEnd(t, s, o, worker)
    ensures o in Apply(t, s, now).operations && Apply(t, s, now).operations[o] == t.operations[o]
  {
    if OnController(s) {
      ControllerStepEffect(t, s, now);
      hide Apply, Enabled;
    } else {
      LeaseShieldsRows(t, s, now, o, worker, end);
    }
  }

  lemma LeaseShieldsRows(t: Tables, s: Step, now: Time, o: Id, worker: Id, end: Time)
    requires Enabled(t, s, now) && LeasedUntil(t, o, worker, end) && t.operations[o].state == Running && !OnController(s)
    requires t.operations[o].worker == Some(worker) && now <= end && !MayEnd(t, s, o, worker)
    ensures o in Apply(t, s, now).operations && Apply(t, s, now).operations[o] == t.operations[o]
  {
    assert o in t.operations;
    hide LeasedUntil, Newest, ExistingFor, ControlSelectable, Publishable;
    hide Submit, RequestResume, RequestCancel, ClaimNext, Complete, ClaimControl;
    match s
    case ClaimStep(_, _, _, _) =>
      ShieldedFromClaims(t, s, now, o, worker, end);
    case CompleteStep(p, w, outcome, control) =>
      CompletionLeavesAlone(t, p, w, outcome, control, now, o, worker);
    case RequestCancelStep(input, selected) =>
      CancellationLeavesAlone(t, input, selected, now, o);
    case ClaimControlStep(request, w, lease) =>
      SelectedIsThere(t, request, now);
      ControlWritesOneRow(t, request, w, lease, now);
    case SubmitStep(command, owner, existing, ids) => SubmissionLeavesAlone(t, command, owner, existing, ids, now, o);
    case RequestResumeStep(input, selected) => ResumeLeavesAlone(t, input, selected, now);
    case PublishStep(_, _, _) =>
  }

  lemma SelectedIsThere(t: Tables, q: Id, now: Time)
    requires ControlSelectable(t, q, now)
    ensures q in t.requests && t.requests[q].operation in t.operations
  {
  }

  lemma SubmissionLeavesAlone(t: Tables, command: Command, owner: Id, existing: Option<Id>, ids: SubmitIds, now: Time, o: Id)
    requires ExistingFor(t, command.execution, existing) && o in t.operations
    ensures var u := Submit(t, command, owner, existing, ids, now).0; o in u.operations && u.operations[o] == t.operations[o]
  {
    hide ToTaskSnapshot, Log;
  }

  lemma ResumeLeavesAlone(t: Tables, input: ResumeInput, selected: Option<Id>, now: Time)
    requires Newest(t, input.task, input.owner, selected)
    ensures RequestResume(t, input, selected, now).0.operations == t.operations
  {
    hide ToTaskSnapshot, Newest, SameRequest;
  }

  lemma CancellationLeavesAlone(t: Tables, input: CancelInput, selected: Option<Id>, now: Time, o: Id)
    requires Newest(t, input.task, input.owner, selected) && o in t.operations && selected != Some(o)
    ensures var u := RequestCancel(t, input, selected, now).0; o in u.operations && u.operations[o] == t.operations[o]
  {
    if selected.Some? {
      SelectedExists(t, input.task, input.owner, selected);
      CancelsOneRow(t, selected.value, input, now);
    }
    hide Newest, SameRequest, CancelOperation;
  }

  lemma CompletionLeavesAlone(t: Tables, p: Id, w: Id, outcome: Outcome, control: Option<Id>, now: Time, o: Id, worker: Id)
    requires o in t.operations && t.operations[o].worker == Some(worker) && (p == o ==> w != worker)
    ensures var u := Complete(t, p, w, outcome, control, now).0; o in u.operations && u.operations[o] == t.operations[o]
  {
    hide Complete, OutcomeState, OutcomeFits;
    CompleteEffect(t, p, w, outcome, control, now);
  }

  lemma ShieldedFromClaims(t: Tables, s: Step, now: Time, o: Id, worker: Id, end: Time)
    requires s.ClaimStep? && Enabled(t, s, now) && LeasedUntil(t, o, worker, end) && now <= end
    ensures o in Apply(t, s, now).operations && Apply(t, s, now).operations[o] == t.operations[o]
  {
    assert !Claimable(t.operations[o], now);
    ClaimEffect(t, s.operation, s.worker, s.lease, s.freshRun, now);
    if s.operation == o {
      ClaimStarts(t, o, s.worker, s.lease, s.freshRun, now);
      hide StartAttempt, AnnounceRunning, Claimable;
    } else {
      hide ClaimNext;
    }
  }

  lemma CancelsOneRow(t: Tables, o: Id, input: CancelInput, now: Time)
    requires o in t.operations
    ensures forall request :: var u := CancelOperation(t, o, input, request, now);
              o in u.operations && u.operations == t.operations[o := u.operations[o]]
  {
    hide CancelOperation;
    forall request ensures var u := CancelOperation(t, o, input, request, now);
                           o in u.operations && u.operations == t.operations[o := u.operations[o]]
    {
      CancelEffect(t, o, input, request, now);
    }
  }

  lemma ControlWritesOneRow(t: Tables, q: Id, worker: Id, lease: int, now: Time)
    requires ControlSelectable(t, q, now)
    ensures var (u, o) := (ClaimControl(t, q, worker, lease, now).0, t.requests[q].operation);
            o in u.operations && u.operations == t.operations[o := u.operations[o]]
  {
    hide Append, Log, RequestMatches, ReceiptsOf, RecoveryPermission, WithRow, FailRequest;
    AppendKeepsTheRest();
    RowIsWritten(t.requests[q].operation);
    FailureKeepsOperations(t, q, now);
    assert t.operations[t.requests[q].operation := t.operations[t.requests[q].operation]] == t.operations;
  }

  lemma FailureKeepsOperations(t: Tables, q: Id, now: Time)
    requires q in t.requests
    ensures forall error :: FailRequest(t, q, error, now).operations == t.operations
  {
  }

  /**
   In every run, from a granted claim on and as long as the clock is within its lease, the operation stays
   with the worker, whatever else runs, unless it is cancelled, its runtime control is claimed, or the
   worker completes it: then too it can be completed by that worker until the end of the lease, and can
   be claimed by others exactly after it.
   */
  lemma {:induction false} ClaimLasts(states: seq<Tables>, steps: seq<TimedStep>, i: nat, j: nat)
    requires IsRun(states, steps) && i < |steps| && i < j < |states| && steps[i].step.ClaimStep?
    requires var s := steps[i].step; ClaimNext(states[i], s.operation, s.worker, s.lease, s.freshRun, steps[i].now).1.Claimed?
    requires forall k :: i < k < j ==>
               steps[k].now <= steps[i].now + steps[i].step.lease
               && !MayEnd(states[k], steps[k].step, steps[i].step.operation, steps[i].step.worker)
    ensures var (s, end) := (steps[i].step, steps[i].now + steps[i].step.lease);
            && LeasedUntil(states[j], s.operation, s.worker, end)
            && states[j].operations[s.operation].state == Running
            && states[j].operations[s.operation].worker == Some(s.worker)
            && ClaimNext(states[i], s.operation, s.worker, s.lease, s.freshRun, steps[i].now).1.run == states[j].operations[s.operation].run
    decreases j
  {
    hide MayEnd, LeasedUntil, ClaimNext, Claimable, Completable;
    var s := steps[i].step;
    if j == i + 1 {
      ClaimIsLeased(states[i], s.operation, s.worker, s.lease, s.freshRun, steps[i].now);
      ClaimWrites(states[i], s.operation, s.worker, s.lease, s.freshRun, steps[i].now);
    } else {
      hide Apply, Enabled;
      ClaimLasts(states, steps, i, j - 1);
      var end := steps[i].now + s.lease;
      LeaseShields(states[j - 1], steps[j - 1].step, steps[j - 1].now, s.operation, s.worker, end);
      SameRowSameLease(states[j - 1], states[j], s.operation, s.worker, end);
    }
  }

  lemma SameRowSameLease(t: Tables, u: Tables, o: Id, worker: Id, end: Time)
    requires LeasedUntil(t, o, worker, end) && o in u.operations && u.operations[o] == t.operations[o]
    ensures LeasedUntil(u, o, worker, end)
  {
    forall outcome: Outcome, w, x | OutcomeFits(outcome, u.operations[o])
      ensures Completable(u, o, w, outcome, x) <==> w == worker && x <= end
    {
      assert Completable(u, o, w, outcome, x) <==> Completable(t, o, w, outcome, x);
    }
  }

  /** In every run, whoever claims an operation gets the owner and the very command it was submitted with. */
  lemma ClaimAnswersTheSubmission(states: seq<Tables>, steps: seq<TimedStep>, i: nat, j: nat,
                                  worker: Id, lease: int, freshRun: Id, now: Time)
    requires IsRun(states, steps) && i < |steps| && i < j < |states| && steps[i].step.SubmitStep?
    requires steps[i].step.command.execution !in states[i].submissions
    requires Submit(states[i], steps[i].step.command, steps[i].step.owner, steps[i].step.existing, steps[i].step.ids, steps[i].now).1.Ok?
    ensures Inv(states[j]) && Enabled(states[j], ClaimStep(steps[i].step.ids.operation, worker, lease, freshRun), now)
    ensures var r := ClaimNext(states[j], steps[i].step.ids.operation, worker, lease, freshRun, now).1;
            r.Claimed? ==> r.owner == steps[i].step.owner && r.command == steps[i].step.command
                           && r.operation == steps[i].step.ids.operation
  {
    var s := steps[i].step;
    SubmissionIsStored(states[i], s, steps[i].now);
    assert states[i + 1] == Apply(states[i], s, steps[i].now);
    hide IsRun, Apply, Inv, Submit;
    RunAdvances(states, steps, i + 1, j);
    RunAdvances(states, steps, j, j);
    assert RowEvolves(states[i + 1], states[j], s.ids.operation);
    ClaimGrantedIff(states[j], s.ids.operation, worker, lease, freshRun, now);
    ClaimWrites(states[j], s.ids.operation, worker, lease, freshRun, now);
    hide ClaimNext, Evolves;
  }

  lemma SubmissionIsStored(t: Tables, s: Step, now: Time)
    requires s.SubmitStep? && Enabled(t, s, now) && s.command.execution !in t.submissions
    requires Submit(t, s.command, s.owner, s.existing, s.ids, now).1.Ok?
    ensures var u := Apply(t, s, now);
            && s.ids.operation in u.operations && u.operations[s.ids.operation].execution == s.command.execution
            && s.command.execution in u.submissions
            && u.submissions[s.command.execution].owner == s.owner && u.submissions[s.command.execution].command == s.command
  {
    hide Log;
  }
}
