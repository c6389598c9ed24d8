/** Where operations come from: who submitted what and when, and which operation a control request is for. */
module TaskSubmissions {
  import opened Wrappers
  import opened TaskTypes
  import opened TaskTransactions
  import opened TaskInvariants
  import opened TaskSteps
  import opened TaskRuns
  import opened TaskTheorems
  import opened TaskClaims
  import opened TaskFencing
  import CanonicalJson

  // ---------------------------------------------------------------- first submissions

  ghost predicate FreshSubmission(t: Tables, command: Command, ids: SubmitIds) {
    command.execution !in t.submissions && ids.operation !in t.operations && ids.run !in t.runs && ids.message !in t.outbox
  }

  /** The rows of a first submission: the command as it was given, and an operation, its first run, its log and its message. */
  ghost predicate IsAccepted(t: Tables, u: Tables, command: Command, owner: Id, ids: SubmitIds, now: Time) {
    && u.submissions == t.submissions[command.execution := Submission(owner, CanonicalJson.Canonicalize(command.body), command.task, command)]
    && u.operations == t.operations[ids.operation :=
         Operation(ids.run, command.execution, command.task, Accepted, None, None, NoPayload, now, now)]
    && u.runs == t.runs[ids.run := AgentRun(ids.operation, 1, now)]
    && u.outbox == t.outbox[ids.message := OutboxMessage(ids.operation, 0, now, None, now)]
    && (forall r :: r != ids.run ==> Log(u, r) == Log(t, r))
    && Log(u, ids.run) == [RunEvent(command.task, ids.run, 1, now, StateChanged, Created, "决策任务已接受")]
    && u.requests == t.requests && u.controllers == t.controllers && u.facts == t.facts && u.receipts == t.receipts
  }

  /** A command under a new execution id is accepted exactly when all its ids are fresh; nothing changes otherwise. */
  lemma AcceptedIff(t: Tables, command: Command, owner: Id, ids: SubmitIds, now: Time)
    requires Inv(t) && ExistingFor(t, command.execution, None)
    ensures var (u, r) := Submit(t, command, owner, None, ids, now);
            && (r.Ok? <==> FreshSubmission(t, command, ids))
            && (r.Ok? ==> r.value == TaskSnapshot(command.execution, command.task, ids.run, Accepted, false, None, now)
                          && IsAccepted(t, u, command, owner, ids, now))
            && (r.Err? ==> r.error == PersistenceUnavailable && u == t)
  {
    hide Submit, Accept, IsAccepted, ExistingFor, Inv;
    SubmitBranches(t, command, owner, ids, now);
    if FreshSubmission(t, command, ids) {
      NoEventsWithoutRun(t, ids.run);
      AcceptedRows(t, command, owner, ids, now);
    }
  }

  lemma SubmitBranches(t: Tables, command: Command, owner: Id, ids: SubmitIds, now: Time)
    requires ExistingFor(t, command.execution, None)
    ensures Submit(t, command, owner, None, ids, now) ==
              if FreshSubmission(t, command, ids) then
                (Accept(t, command, owner, ids, now),
                 Ok(TaskSnapshot(command.execution, command.task, ids.run, Accepted, false, None, now)))
              else (t, Err(PersistenceUnavailable))
  {
    hide Accept, ExistingFor, CanonicalJson.Canonicalize;
  }

  lemma NoEventsWithoutRun(t: Tables, r: Id)
    requires Inv(t) && r !in t.runs
    ensures r !in t.events
  {
    hide OperationsOk, RequestsOk, OutboxOk, SubmissionsOk, RunOk;
  }

  lemma AcceptedRows(t: Tables, command: Command, owner: Id, ids: SubmitIds, now: Time)
    requires ids.run !in t.events
    ensures IsAccepted(t, Accept(t, command, owner, ids, now), command, owner, ids, now)
  {
    hide CanonicalJson.Canonicalize;
  }

  // ---------------------------------------------------------------- where operations come from

  /** Step `k` adds operation `o`. */
  ghost predicate Adds(states: seq<Tables>, steps: seq<TimedStep>, k: nat, o: Id) {
    k < |steps| && |states| == |steps| + 1 && o !in states[k].operations && o in states[k + 1].operations
  }

  lemma RewritesKeepKeys(t: Tables, s: Step, now: Time)
    requires Enabled(t, s, now) && !s.SubmitStep?
    ensures Apply(t, s, now).operations.Keys == t.operations.Keys
  {
    if OnController(s) {
      ControllerStepEffect(t, s, now);
      hide Apply, Enabled;
    } else {
      hide Completable, ToTaskSnapshot, Newest, RequestCancel, ClaimNext, Complete, ClaimControl, ControlSelectable, Publishable;
      match s
      case ClaimStep(o, worker, lease, freshRun) => ClaimEffect(t, o, worker, lease, freshRun, now);
      case CompleteStep(o, worker, outcome, control) =>
        CompleteEffect(t, o, worker, outcome, control, now);
        hide OutcomeState;
      case RequestCancelStep(input, selected) => CancelKeepsKeys(t, input, selected, now);
      case ClaimControlStep(q, worker, lease) =>
        SelectableHasOperation(t, q, now);
        ControlWritesOneRow(t, q, worker, lease, now);
      case RequestResumeStep(_, _) =>
      case PublishStep(_, _, _) =>
    }
  }

  lemma CancelKeepsKeys(t: Tables, input: CancelInput, selected: Option<Id>, now: Time)
    requires Newest(t, input.task, input.owner, selected)
    ensures RequestCancel(t, input, selected, now).0.operations.Keys == t.operations.Keys
  {
    hide SameRequest, CancelOperation;
    if selected.Some? {
      SelectedExists(t, input.task, input.owner, selected);
      hide Newest;
      CancelsOneRow(t, selected.value, input, now);
    }
  }

  lemma SelectableHasOperation(t: Tables, q: Id, now: Time)
    requires ControlSelectable(t, q, now)
    ensures t.requests[q].operation in t.operations
  {
  }

  /** What a submission that adds an operation leaves for good. */
  ghost predicate ComesFrom(t: Tables, o: Id, s: TimedStep) {
    && s.step.SubmitStep? && s.step.ids.operation == o && o in t.operations
    && t.operations[o].execution == s.step.command.execution && t.operations[o].task == s.step.command.task
    && t.operations[o].createdAt == s.now
    && s.step.command.execution in t.submissions && t.submissions[s.step.command.execution].owner == s.step.owner
    && t.submissions[s.step.command.execution].command == s.step.command
  }

  lemma AddedBySubmission(t: Tables, s: Step, now: Time, o: Id)
    requires Inv(t) && Enabled(t, s, now) && o !in t.operations && o in Apply(t, s, now).operations
    ensures ComesFrom(Apply(t, s, now), o, At(s, now))
  {
    hide Inv, Submit;
    if s.SubmitStep? {
      AddedIfNew(t, s, now, o);
    } else {
      RewritesKeepKeys(t, s, now);
      assert false;
    }
  }

  lemma AddedIfNew(t: Tables, s: Step, now: Time, o: Id)
    requires Inv(t) && Enabled(t, s, now) && s.SubmitStep? && o !in t.operations && o in Apply(t, s, now).operations
    ensures ComesFrom(Apply(t, s, now), o, At(s, now))
  {
    hide Inv, Log, CanonicalJson.Canonicalize;
    if s.existing.None? {
      AcceptedIff(t, s.command, s.owner, s.ids, now);
    } else {
      ExistingIsKept(t, s, now);
      assert false;
    }
    hide Submit;
  }

  lemma ExistingIsKept(t: Tables, s: Step, now: Time)
    requires Enabled(t, s, now) && s.SubmitStep? && s.existing.Some?
    ensures Apply(t, s, now) == t
  {
    hide ToTaskSnapshot, CanonicalJson.Canonicalize;
  }

  /** In every run, each operation was added by one submission, and keeps its execution id, task, owner, command and time. */
  lemma SubmittedOnce(states: seq<Tables>, steps: seq<TimedStep>, j: nat, o: Id) returns (k: nat)
    requires IsRun(states, steps) && j < |states| && o in states[j].operations
    ensures k < j && Adds(states, steps, k, o) && ComesFrom(states[j], o, steps[k])
    ensures forall i :: 0 <= i < j && Adds(states, steps, i, o) ==> i == k
  {
    k := Submitted(states, steps, j, o);
    hide IsRun, ComesFrom;
    forall i | 0 <= i < j && Adds(states, steps, i, o) ensures i == k {
      if i < k {
        AddedStays(states, steps, i, k, o);
      } else if k < i {
        AddedStays(states, steps, k, i, o);
      }
    }
  }

  lemma {:induction false} Submitted(states: seq<Tables>, steps: seq<TimedStep>, j: nat, o: Id) returns (k: nat)
    requires IsRun(states, steps) && j < |states| && o in states[j].operations
    ensures k < j && Adds(states, steps, k, o) && ComesFrom(states[j], o, steps[k])
    decreases j
  {
    hide Apply, Enabled, Inv, Evolves, ComesFrom;
    if j == 0 {
      assert false;
    } else {
      RunAdvances(states, steps, j - 1, j);
      if o in states[j - 1].operations {
        k := Submitted(states, steps, j - 1, o);
        KeepsItsOrigin(states[j - 1], states[j], o, steps[k]);
      } else {
        k := j - 1;
        AddedBySubmission(states[j - 1], steps[j - 1].step, steps[j - 1].now, o);
      }
    }
  }

  lemma KeepsItsOrigin(t: Tables, u: Tables, o: Id, s: TimedStep)
    requires Evolves(t, u) && ComesFrom(t, o, s)
    ensures ComesFrom(u, o, s)
  {
    assert RowEvolves(t, u, o);
  }

  // ---------------------------------------------------------------- whose operation a control request is for

  /** Step `k` added an operation of this task for this owner. */
  ghost predicate AddsFor(states: seq<Tables>, steps: seq<TimedStep>, k: nat, o: Id, task: Id, owner: Id) {
    && Adds(states, steps, k, o) && steps[k].step.SubmitStep?
    && steps[k].step.owner == owner && steps[k].step.command.task == task
  }

  /** The operation was submitted by this owner for this task, and none of theirs was submitted later. */
  ghost predicate SubmittedLast(states: seq<Tables>, steps: seq<TimedStep>, i: nat, o: Id, task: Id, owner: Id) {
    exists k: nat :: AddsFor(states, steps, k, o, task, owner) && k < i && NoneLater(states, steps, i, steps[k].now, task, owner)
  }

  ghost predicate NoneLater(states: seq<Tables>, steps: seq<TimedStep>, i: nat, at: Time, task: Id, owner: Id) {
    forall o, l :: 0 <= l < i && AddsFor(states, steps, l, o, task, owner) ==> steps[l].now <= at
  }

  /**
   In every run, a control request that is accepted or repeated is for an operation that its owner submitted
   for its task, and none that this owner submitted for this task was submitted later; there is none at all
   exactly when the request is answered with nothing.
   */
  lemma RequestsAreForTheNewest(states: seq<Tables>, steps: seq<TimedStep>, i: nat, input: CancelInput, selected: Option<Id>, now: Time)
    requires IsRun(states, steps) && i < |states| && Newest(states[i], input.task, input.owner, selected)
    ensures var answer := RequestCancel(states[i], input, selected, now).1;
            && (answer == Ok(None) <==> forall o, k :: 0 <= k < i ==> !AddsFor(states, steps, k, o, input.task, input.owner))
            && (answer.Ok? && answer.value.Some? ==>
                  SubmittedLast(states, steps, i, answer.value.value.operation, input.task, input.owner))
  {
    CancelIsForSelected(states[i], input, selected, now);
    SelectedIsNewest(states, steps, i, input.task, input.owner, selected);
    hide RequestCancel, Newest, IsRun, AddsFor, SubmittedLast;
  }

  /** The same of requests to resume, which besides must be confirmed by their owner under their own id. */
  lemma ResumesAreForTheNewest(states: seq<Tables>, steps: seq<TimedStep>, i: nat, input: ResumeInput, selected: Option<Id>, now: Time)
    requires IsRun(states, steps) && i < |states| && Newest(states[i], input.task, input.owner, selected)
    ensures var answer := RequestResume(states[i], input, selected, now).1;
            var confirmed := input.confirmationOperation == input.request && input.confirmationUser == input.owner;
            && (answer == Ok(None) <==>
                  confirmed && forall o, k :: 0 <= k < i ==> !AddsFor(states, steps, k, o, input.task, input.owner))
            && (answer.Ok? && answer.value.Some? ==>
                  confirmed && SubmittedLast(states, steps, i, answer.value.value.operation, input.task, input.owner))
  {
    ResumeIsForSelected(states[i], input, selected, now);
    SelectedIsNewest(states, steps, i, input.task, input.owner, selected);
    hide RequestResume, Newest, IsRun, AddsFor, SubmittedLast;
  }

  lemma CancelIsForSelected(t: Tables, input: CancelInput, selected: Option<Id>, now: Time)
    requires Newest(t, input.task, input.owner, selected)
    ensures var answer := RequestCancel(t, input, selected, now).1;
            && (answer == Ok(None) <==> selected.None?)
            && (answer.Ok? && answer.value.Some? ==> selected == Some(answer.value.value.operation))
  {
    if selected.Some? {
      SelectedExists(t, input.task, input.owner, selected);
    }
    hide Newest, CancelOperation;
  }

  lemma ResumeIsForSelected(t: Tables, input: ResumeInput, selected: Option<Id>, now: Time)
    requires Newest(t, input.task, input.owner, selected)
    ensures var answer := RequestResume(t, input, selected, now).1;
            var confirmed := input.confirmationOperation == input.request && input.confirmationUser == input.owner;
            && (answer == Ok(None) <==> confirmed && selected.None?)
            && (answer.Ok? && answer.value.Some? ==> confirmed && selected == Some(answer.value.value.operation))
  {
    if selected.Some? {
      SelectedExists(t, input.task, input.owner, selected);
    }
    hide Newest, ToTaskSnapshot;
  }

  lemma OwnedIff(states: seq<Tables>, steps: seq<TimedStep>, i: nat, o: Id, task: Id, owner: Id) returns (k: nat)
    requires IsRun(states, steps) && i < |states| && o in states[i].operations
    ensures k < i && Adds(states, steps, k, o) && states[i].operations[o].createdAt == steps[k].now
    ensures OwnedOperation(states[i], o, task, owner) <==> AddsFor(states, steps, k, o, task, owner)
    ensures forall l :: 0 <= l < i && Adds(states, steps, l, o) ==> l == k
  {
    k := SubmittedOnce(states, steps, i, o);
    hide IsRun, Adds;
  }

  lemma AddedStays(states: seq<Tables>, steps: seq<TimedStep>, l: nat, i: nat, o: Id)
    requires IsRun(states, steps) && l < i < |states| && Adds(states, steps, l, o)
    ensures o in states[i].operations
  {
    hide IsRun, Inv;
    RunAdvances(states, steps, l + 1, i);
    assert RowEvolves(states[l + 1], states[i], o);
  }

  lemma SelectedIsNewest(states: seq<Tables>, steps: seq<TimedStep>, i: nat, task: Id, owner: Id, selected: Option<Id>)
    requires IsRun(states, steps) && i < |states| && Newest(states[i], task, owner, selected)
    ensures selected.None? <==> forall o, k :: 0 <= k < i ==> !AddsFor(states, steps, k, o, task, owner)
    ensures selected.Some? ==> SubmittedLast(states, steps, i, selected.value, task, owner)
  {
    hide IsRun, OwnedOperation;
    var t := states[i];
    forall o, l | 0 <= l < i && AddsFor(states, steps, l, o, task, owner)
      ensures o in t.operations && OwnedOperation(t, o, task, owner) && t.operations[o].createdAt == steps[l].now
    {
      AddedStays(states, steps, l, i, o);
      var k := OwnedIff(states, steps, i, o, task, owner);
    }
    if selected.Some? {
      SelectedExists(t, task, owner, selected);
      var k := OwnedIff(states, steps, i, selected.value, task, owner);
      assert AddsFor(states, steps, k, selected.value, task, owner);
    }
  }
}
