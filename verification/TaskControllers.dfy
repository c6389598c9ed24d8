/** Who holds the runtime controller of a run. */
module TaskControllers {
  import opened Wrappers
  import opened TaskTypes
  import opened TaskTransactions
  import opened TaskInvariants
  import opened TaskSteps
  import opened TaskRuns

  ghost predicate HeldBy(t: Tables, run: Id, id: Id) {
    run in t.controllers && t.controllers[run].state == ControllerRunning && t.controllers[run].controllerId == Some(id)
  }

  ghost predicate LeasedBeyond(t: Tables, run: Id, now: Time) {
    run in t.controllers && t.controllers[run].leaseExpiresAt.Some? && t.controllers[run].leaseExpiresAt.value > now
  }

  /** The step of a controller that gives its run up. */
  ghost predicate GivesUp(s: Step, run: Id, id: Id) {
    s.FinishControllerStep? && s.run == run && s.controllerId == id
  }

  /** Held and leased controllers stay, are cancelled, or give up. */
  ghost predicate KeepsHolders(t: Tables, u: Tables, s: Step, now: Time) {
    forall run, id :: HeldBy(t, run, id) && LeasedBeyond(t, run, now) && !GivesUp(s, run, id) ==>
      HeldBy(u, run, id) || CancelledController(u, run)
  }

  ghost predicate ResumesFrom(t: Tables, s: Step, now: Time, run: Id, id: Id) {
    && s.ResumeControllerStep? && s.run == run && s.controllerId == id
    && run in t.controllers && Some(s.snapshotId) == t.controllers[run].snapshotId
    && (t.controllers[run].state.ControllerPaused? || !LeasedBeyond(t, run, now))
  }

  ghost predicate AwaitsResume(t: Tables, run: Id, id: Id) {
    run in t.controllers && t.controllers[run].snapshotId.Some? && t.controllers[run].controllerId != Some(id)
  }

  /** A run with a recovery snapshot goes to another controller only by a resume from that snapshot. */
  ghost predicate HandsOver(t: Tables, u: Tables, s: Step, now: Time) {
    forall run, id :: AwaitsResume(t, run, id) && run in u.controllers && u.controllers[run].controllerId == Some(id) ==>
      ResumesFrom(t, s, now, run, id)
  }

  // ---------------------------------------------------------------- each transaction

  lemma SaveFactsControllers(t: Tables, snapshot: RuntimeSnapshot, receipts: seq<EffectReceipt>, present: bool, now: Time)
    ensures var u := SaveFacts(t, snapshot, receipts, present, now).0;
            forall run :: run in t.controllers ==>
              && run in u.controllers && u.controllers[run].state == t.controllers[run].state
              && u.controllers[run].controllerId == t.controllers[run].controllerId
  {
    hide AddReceipts, ReceiptsOf, ToSet, BelongsTo, ControllerStateOf;
  }

  lemma SaveFactsHolders(t: Tables, s: Step, now: Time)
    requires s.SaveFactsStep? && Enabled(t, s, now)
    ensures KeepsHolders(t, Apply(t, s, now), s, now) && HandsOver(t, Apply(t, s, now), s, now)
  {
    SaveFactsControllers(t, s.snapshot, s.receipts, s.objectsPresent, now);
    hide SaveFacts;
  }

  lemma RecordRunningControllers(t: Tables, run: Id, id: Id, lease: int, now: Time)
    ensures var u := RecordRunning(t, run, id, lease, now).0;
            || u == t
            || exists c: Controller :: u == WithController(t, run, c) && c.state == ControllerRunning && c.controllerId == Some(id)
    ensures RecordRunning(t, run, id, lease, now).0 != t ==>
              || HeldBy(t, run, id) || run !in t.controllers
              || (!LeasedBeyond(t, run, now) && t.controllers[run].snapshotId.None?)
  {
    hide WithController;
  }

  /** A controller written over one that is its own, or missing, or over its lease without a snapshot. */
  lemma TakeOver(t: Tables, run: Id, c: Controller, id: Id, s: Step, now: Time)
    requires c.state == ControllerRunning && c.controllerId == Some(id)
    requires HeldBy(t, run, id) || run !in t.controllers || (!LeasedBeyond(t, run, now) && t.controllers[run].snapshotId.None?)
    ensures KeepsHolders(t, WithController(t, run, c), s, now) && HandsOver(t, WithController(t, run, c), s, now)
  {
  }

  lemma NothingChanges(t: Tables, s: Step, now: Time)
    ensures KeepsHolders(t, t, s, now) && HandsOver(t, t, s, now)
  {
  }

  lemma RecordRunningHolders(t: Tables, s: Step, now: Time)
    requires s.RecordRunningStep? && Enabled(t, s, now)
    ensures KeepsHolders(t, Apply(t, s, now), s, now) && HandsOver(t, Apply(t, s, now), s, now)
  {
    hide RecordRunning, KeepsHolders, HandsOver, WithController, HeldBy, LeasedBeyond;
    RecordRunningControllers(t, s.run, s.controllerId, s.lease, now);
    NothingChanges(t, s, now);
    var u := Apply(t, s, now);
    if u != t {
      var c: Controller :| u == WithController(t, s.run, c) && c.state == ControllerRunning && c.controllerId == Some(s.controllerId);
      TakeOver(t, s.run, c, s.controllerId, s, now);
    }
  }

  lemma ResumeHolders(t: Tables, s: Step, now: Time)
    requires s.ResumeControllerStep? && Enabled(t, s, now)
    ensures KeepsHolders(t, Apply(t, s, now), s, now) && HandsOver(t, Apply(t, s, now), s, now)
  {
  }

  lemma FinishHolders(t: Tables, s: Step, now: Time)
    requires s.FinishControllerStep? && Enabled(t, s, now)
    ensures KeepsHolders(t, Apply(t, s, now), s, now) && HandsOver(t, Apply(t, s, now), s, now)
  {
  }

  lemma CancelRuntimeHolders(t: Tables, s: Step, now: Time)
    requires s.CancelRuntimeStep? && Enabled(t, s, now)
    ensures KeepsHolders(t, Apply(t, s, now), s, now) && HandsOver(t, Apply(t, s, now), s, now)
  {
  }

  lemma CancelWritesCancelled(t: Tables, input: CancelInput, selected: Option<Id>, now: Time)
    requires Newest(t, input.task, input.owner, selected)
    ensures var u := RequestCancel(t, input, selected, now).0;
            u.controllers == t.controllers
            || exists run :: run in u.controllers && u.controllers == t.controllers[run := u.controllers[run]]
                 && u.controllers[run].state == ControllerCancelled && u.controllers[run].controllerId.None?
  {
    hide CancelOperation, SameRequest;
    if selected.Some? {
      SelectedExists(t, input.task, input.owner, selected);
      hide Newest;
      CancelWrites(t, selected.value, input, now);
    }
  }

  lemma CancelWrites(t: Tables, o: Id, input: CancelInput, now: Time)
    requires o in t.operations
    ensures forall request :: var u := CancelOperation(t, o, input, request, now);
              var run := t.operations[o].run;
              run in u.controllers && u.controllers == t.controllers[run := u.controllers[run]]
              && u.controllers[run].state == ControllerCancelled && u.controllers[run].controllerId.None?
  {
    hide Log;
  }

  lemma CancelHolders(t: Tables, s: Step, now: Time)
    requires s.RequestCancelStep? && Enabled(t, s, now)
    ensures KeepsHolders(t, Apply(t, s, now), s, now) && HandsOver(t, Apply(t, s, now), s, now)
  {
    CancelWritesCancelled(t, s.cancel, s.selected, now);
    hide RequestCancel, Newest;
  }

  lemma StepHolders(t: Tables, s: Step, now: Time)
    requires Enabled(t, s, now)
    ensures KeepsHolders(t, Apply(t, s, now), s, now) && HandsOver(t, Apply(t, s, now), s, now)
  {
    hide Apply, Enabled;
    match s
    case SaveFactsStep(_, _, _) => SaveFactsHolders(t, s, now);
    case RecordRunningStep(_, _, _) => RecordRunningHolders(t, s, now);
    case ResumeControllerStep(_, _, _, _) => ResumeHolders(t, s, now);
    case FinishControllerStep(_, _, _, _, _, _) => FinishHolders(t, s, now);
    case CancelRuntimeStep(_, _, _) => CancelRuntimeHolders(t, s, now);
    case RequestCancelStep(_, _) => CancelHolders(t, s, now);
    case _ => StepKeepsTheRest(t, s, now);
  }

  // ---------------------------------------------------------------- the guarantees

  /** Before its lease is over, a controller is displaced only by cancellation, unless it gives up itself. */
  lemma OnlyCancelDisplaces(t: Tables, s: Step, now: Time, run: Id, id: Id)
    requires Enabled(t, s, now) && HeldBy(t, run, id) && LeasedBeyond(t, run, now) && !GivesUp(s, run, id)
    ensures HeldBy(Apply(t, s, now), run, id) || CancelledController(Apply(t, s, now), run)
  {
    hide Apply, Enabled, HeldBy, LeasedBeyond, GivesUp;
    StepHolders(t, s, now);
  }

  /**
   Once a run has a recovery snapshot, another controller takes it only by a resume that names that
   snapshot, after a pause or after the lease of the controller that held it.
   */
  lemma HandoverNamesTheSnapshot(t: Tables, s: Step, now: Time, run: Id, id: Id)
    requires Enabled(t, s, now) && run in t.controllers && t.controllers[run].snapshotId.Some?
    requires t.controllers[run].controllerId != Some(id)
    requires run in Apply(t, s, now).controllers && Apply(t, s, now).controllers[run].controllerId == Some(id)
    ensures s.ResumeControllerStep? && s.run == run && s.controllerId == id
    ensures Some(s.snapshotId) == t.controllers[run].snapshotId
    ensures t.controllers[run].state.ControllerPaused? || !LeasedBeyond(t, run, now)
  {
    hide Apply, Enabled;
    StepHolders(t, s, now);
    assert AwaitsResume(t, run, id);
  }
}
