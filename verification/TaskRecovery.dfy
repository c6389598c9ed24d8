/** Recovery facts and the controllers of runs: what is stored, who is let in, and for how long. */
module TaskRecovery {
  import opened Wrappers
  import opened TaskTypes
  import opened TaskTransactions
  import opened TaskInvariants
  import opened TaskRuns
  import opened TaskControllers
  import opened TaskSteps
  import opened TaskControls

  // ---------------------------------------------------------------- recovery facts

  /** Stored receipts are under their own ids, and belong to a stored snapshot that is under its own id. */
  ghost predicate FactsOk(t: Tables) {
    && (forall s :: s in t.facts ==> t.facts[s].snapshotId == s && ControllerStateOf(t.facts[s].taskState).Some?)
    && (forall k :: k in t.receipts ==> StoredReceiptOk(t, k))
  }

  ghost predicate StoredReceiptOk(t: Tables, k: Id)
    requires k in t.receipts
  {
    && t.receipts[k].receipt.receiptId == k && t.receipts[k].snapshotId in t.facts
    && BelongsTo(t.receipts[k].receipt, t.facts[t.receipts[k].snapshotId])
  }

  /** Facts and receipts are never changed or lost. */
  ghost predicate FactsEvolve(t: Tables, u: Tables) {
    && (forall s :: s in t.facts ==> s in u.facts && u.facts[s] == t.facts[s])
    && (forall k :: k in t.receipts ==> k in u.receipts && u.receipts[k] == t.receipts[k])
  }

  /** Each receipt id is stored once: what was there stays, and new ids get the first receipt of the list that has them. */
  lemma {:induction false} AddedReceipts(stored: map<Id, StoredReceipt>, id: Id, receipts: seq<EffectReceipt>)
    ensures var u := AddReceipts(stored, id, receipts);
            && (forall k :: k in stored ==> k in u && u[k] == stored[k])
            && (forall k :: k in u && k !in stored ==> u[k].snapshotId == id && u[k].receipt in receipts && u[k].receipt.receiptId == k)
            && (forall r :: r in receipts ==> r.receiptId in u)
    decreases |receipts|
  {
    if receipts != [] {
      var r := receipts[0];
      AddedReceipts(if r.receiptId in stored then stored else stored[r.receiptId := StoredReceipt(id, r)], id, receipts[1..]);
    }
  }

  lemma {:induction false} DistinctIff<T>(s: seq<T>)
    ensures |ToSet(s)| <= |s|
    ensures |ToSet(s)| == |s| <==> forall i, j :: 0 <= i < j < |s| ==> s[i] != s[j]
  {
    if s != [] {
      var (rest, last) := (s[..|s| - 1], s[|s| - 1]);
      DistinctIff(rest);
      assert ToSet(s) == ToSet(rest) + {last};
      if last in rest {
        assert ToSet(s) == ToSet(rest);
      }
    }
  }

  /** The receipts say nothing that contradicts each other or what is stored, and leave out no stored one. */
  ghost predicate Agrees(t: Tables, id: Id, receipts: seq<EffectReceipt>) {
    && (forall i, j :: 0 <= i < j < |receipts| ==> receipts[i].receiptId != receipts[j].receiptId)
    && (forall r :: r in receipts && r.receiptId in t.receipts ==> t.receipts[r.receiptId] == StoredReceipt(id, r))
    && (forall k :: k in t.receipts && t.receipts[k].snapshotId == id ==> t.receipts[k].receipt in receipts)
  }

  ghost predicate KeyedById(stored: map<Id, StoredReceipt>) {
    forall k :: k in stored ==> stored[k].receipt.receiptId == k
  }

  lemma ReceiptsOfKeyed(t: Tables, id: Id)
    requires KeyedById(t.receipts)
    ensures forall r :: r in ReceiptsOf(t, id) <==> r.receiptId in t.receipts && t.receipts[r.receiptId] == StoredReceipt(id, r)
  {
  }

  /** The comparison of stored and given receipts, after the inserts, is agreement before them. */
  lemma AgreesIff(t: Tables, id: Id, receipts: seq<EffectReceipt>)
    requires KeyedById(t.receipts)
    ensures var saved := t.(receipts := AddReceipts(t.receipts, id, receipts));
            ReceiptsOf(saved, id) == ToSet(receipts) && |ReceiptsOf(saved, id)| == |receipts| <==> Agrees(t, id, receipts)
  {
    var saved := t.(receipts := AddReceipts(t.receipts, id, receipts));
    AddedReceipts(t.receipts, id, receipts);
    ReceiptsOfKeyed(saved, id);
    hide ReceiptsOf, AddReceipts;
    DistinctIff(receipts);
    assert forall r :: r in ToSet(receipts) <==> r in receipts;
    if Agrees(t, id, receipts) {
      AgreeingAreStored(t, saved, id, receipts);
    } else if ReceiptsOf(saved, id) == ToSet(receipts) && |ReceiptsOf(saved, id)| == |receipts| {
      StoredAgree(t, saved, id, receipts);
    }
  }

  lemma AgreeingAreStored(t: Tables, saved: Tables, id: Id, receipts: seq<EffectReceipt>)
    requires Agrees(t, id, receipts) && KeyedById(t.receipts)
    requires forall k :: k in t.receipts ==> k in saved.receipts && saved.receipts[k] == t.receipts[k]
    requires forall k :: k in saved.receipts && k !in t.receipts ==>
               saved.receipts[k].snapshotId == id && saved.receipts[k].receipt in receipts && saved.receipts[k].receipt.receiptId == k
    requires forall r :: r in receipts ==> r.receiptId in saved.receipts
    requires forall r :: r in ReceiptsOf(saved, id) <==> r.receiptId in saved.receipts && saved.receipts[r.receiptId] == StoredReceipt(id, r)
    ensures ReceiptsOf(saved, id) == ToSet(receipts)
    ensures forall i, j :: 0 <= i < j < |receipts| ==> receipts[i] != receipts[j]
  {
    hide ReceiptsOf;
    forall r | r in receipts ensures saved.receipts[r.receiptId] == StoredReceipt(id, r) {
      var i :| 0 <= i < |receipts| && receipts[i] == r;
      if r.receiptId !in t.receipts {
        var other := saved.receipts[r.receiptId].receipt;
        var j :| 0 <= j < |receipts| && receipts[j] == other;
        assert i == j;
      }
    }
    forall r | r in ReceiptsOf(saved, id) ensures r in receipts {
      assert r.receiptId in t.receipts || r.receiptId !in t.receipts;
    }
  }

  lemma StoredAgree(t: Tables, saved: Tables, id: Id, receipts: seq<EffectReceipt>)
    requires KeyedById(t.receipts) && ReceiptsOf(saved, id) == ToSet(receipts)
    requires forall i, j :: 0 <= i < j < |receipts| ==> receipts[i] != receipts[j]
    requires forall k :: k in t.receipts ==> k in saved.receipts && saved.receipts[k] == t.receipts[k]
    requires forall r :: r in ReceiptsOf(saved, id) <==> r.receiptId in saved.receipts && saved.receipts[r.receiptId] == StoredReceipt(id, r)
    ensures Agrees(t, id, receipts)
  {
    hide ReceiptsOf;
    assert forall r :: r in receipts ==> r in ToSet(receipts);
    forall i, j | 0 <= i < j < |receipts| ensures receipts[i].receiptId != receipts[j].receiptId {
      assert receipts[i] in ReceiptsOf(saved, id) && receipts[j] in ReceiptsOf(saved, id);
    }
    forall k | k in t.receipts && t.receipts[k].snapshotId == id ensures t.receipts[k].receipt in receipts {
      assert saved.receipts[t.receipts[k].receipt.receiptId] == StoredReceipt(id, t.receipts[k].receipt);
      assert t.receipts[k].receipt in ReceiptsOf(saved, id);
    }
  }

  /** What a save needs of the snapshot: its objects, its own receipts, an ended or paused state, and no other content under its id. */
  ghost predicate MaySave(t: Tables, snapshot: RuntimeSnapshot, receipts: seq<EffectReceipt>, objectsPresent: bool) {
    && objectsPresent
    && (forall r :: r in receipts ==> r.task == snapshot.task && r.run == snapshot.run && r.checkpoint == snapshot.checkpoint)
    && (snapshot.taskState.TaskPaused? || snapshot.taskState in {TaskCompleted, TaskCancelled, TaskFailed})
    && (snapshot.snapshotId in t.facts ==> t.facts[snapshot.snapshotId] == snapshot)
    && Agrees(t, snapshot.snapshotId, receipts)
  }

  /** What a save leaves: the snapshot, exactly its receipts, and a controller of its run that knows a snapshot or has ended its wait for one. */
  ghost predicate IsSaved(t: Tables, u: Tables, snapshot: RuntimeSnapshot, receipts: seq<EffectReceipt>) {
    && u.facts == t.facts[snapshot.snapshotId := snapshot]
    && FactsEvolve(t, u)
    && (forall r :: r in receipts ==> r.receiptId in u.receipts && u.receipts[r.receiptId] == StoredReceipt(snapshot.snapshotId, r))
    && (forall k :: k in u.receipts && k !in t.receipts ==> u.receipts[k].receipt in receipts && u.receipts[k].receipt.receiptId == k)
    && ControllerSaved(t, u, snapshot)
  }

  /** A first snapshot makes the controller; a running one without a snapshot gets it; any other stays. */
  ghost predicate ControllerSaved(t: Tables, u: Tables, snapshot: RuntimeSnapshot) {
    && snapshot.run in u.controllers && u.controllers == t.controllers[snapshot.run := u.controllers[snapshot.run]]
    && var c := u.controllers[snapshot.run];
       if snapshot.run !in t.controllers then
         c.snapshotId == Some(snapshot.snapshotId) && c.controllerId.None? && c.leaseExpiresAt.None? && StateIs(c.state, snapshot.taskState)
       else
         var before := t.controllers[snapshot.run];
         if before.state == ControllerRunning && before.snapshotId.None?
         then c == before.(snapshotId := Some(snapshot.snapshotId), updatedAt := c.updatedAt) else c == before
  }

  /** The state of a controller and that of a snapshot are the same. */
  ghost predicate StateIs(c: ControllerState, s: TaskState) {
    match c
    case ControllerRunning => false
    case ControllerPaused(kind) => s == TaskPaused(kind)
    case ControllerCompleted => s == TaskCompleted
    case ControllerCancelled => s == TaskCancelled
    case ControllerFailed => s == TaskFailed
  }

  lemma ControllerStateIs(s: TaskState)
    ensures ControllerStateOf(s).Some? <==> s.TaskPaused? || s in {TaskCompleted, TaskCancelled, TaskFailed}
    ensures ControllerStateOf(s).Some? ==> StateIs(ControllerStateOf(s).value, s)
  {
  }

  /** Recovery facts are saved exactly when they may be; otherwise nothing changes. */
  lemma SavedIff(t: Tables, snapshot: RuntimeSnapshot, receipts: seq<EffectReceipt>, objectsPresent: bool, now: Time)
    requires FactsOk(t)
    ensures var (u, r) := SaveFacts(t, snapshot, receipts, objectsPresent, now);
            && (r.Ok? <==> MaySave(t, snapshot, receipts, objectsPresent))
            && (if r.Ok? then IsSaved(t, u, snapshot, receipts) else u == t)
  {
    SaveAllowedIff(t, snapshot, receipts, objectsPresent, now);
    hide SaveFacts, MaySave, IsSaved;
    if SaveFacts(t, snapshot, receipts, objectsPresent, now).1.Ok? {
      SaveSaves(t, snapshot, receipts, objectsPresent, now);
    }
  }

  lemma SaveAllowedIff(t: Tables, snapshot: RuntimeSnapshot, receipts: seq<EffectReceipt>, objectsPresent: bool, now: Time)
    requires FactsOk(t)
    ensures var (u, r) := SaveFacts(t, snapshot, receipts, objectsPresent, now);
            (r.Ok? <==> MaySave(t, snapshot, receipts, objectsPresent)) && (r.Err? ==> u == t)
  {
    assert KeyedById(t.receipts);
    hide FactsOk, SaveFacts, ReceiptsOf, StateIs, ControllerStateOf, Agrees, AddReceipts, KeyedById, ToSet;
    AgreesIff(t, snapshot.snapshotId, receipts);
    ControllerStateIs(snapshot.taskState);
    SaveGuard(t, snapshot, receipts, objectsPresent, now);
  }

  lemma SaveSaves(t: Tables, snapshot: RuntimeSnapshot, receipts: seq<EffectReceipt>, objectsPresent: bool, now: Time)
    requires FactsOk(t) && MaySave(t, snapshot, receipts, objectsPresent)
    requires SaveFacts(t, snapshot, receipts, objectsPresent, now).1.Ok?
    ensures IsSaved(t, SaveFacts(t, snapshot, receipts, objectsPresent, now).0, snapshot, receipts)
  {
    hide SaveFacts, Agrees, AddReceipts, ControllerSaved;
    assert KeyedById(t.receipts);
    SavedController(t, snapshot, receipts, objectsPresent, now);
    SavedReceipts(t, t.(receipts := AddReceipts(t.receipts, snapshot.snapshotId, receipts)), snapshot.snapshotId, receipts);
  }

  lemma SavedReceipts(t: Tables, saved: Tables, id: Id, receipts: seq<EffectReceipt>)
    requires KeyedById(t.receipts) && Agrees(t, id, receipts)
    requires saved == t.(receipts := AddReceipts(t.receipts, id, receipts))
    ensures FactsEvolve(t, saved)
    ensures forall r :: r in receipts ==> r.receiptId in saved.receipts && saved.receipts[r.receiptId] == StoredReceipt(id, r)
    ensures forall k :: k in saved.receipts && k !in t.receipts ==>
              saved.receipts[k].receipt in receipts && saved.receipts[k].receipt.receiptId == k
  {
    AddedReceipts(t.receipts, id, receipts);
    hide AddReceipts, ReceiptsOf;
    forall r | r in receipts ensures saved.receipts[r.receiptId] == StoredReceipt(id, r) {
      var i :| 0 <= i < |receipts| && receipts[i] == r;
      if r.receiptId !in t.receipts {
        var j :| 0 <= j < |receipts| && receipts[j] == saved.receipts[r.receiptId].receipt;
        assert i == j;
      }
    }
  }

  lemma SameReceipts(t: Tables, u: Tables, id: Id)
    requires t.receipts == u.receipts
    ensures ReceiptsOf(t, id) == ReceiptsOf(u, id)
  {
  }

  lemma SaveGuard(t: Tables, snapshot: RuntimeSnapshot, receipts: seq<EffectReceipt>, objectsPresent: bool, now: Time)
    ensures var (u, r) := SaveFacts(t, snapshot, receipts, objectsPresent, now);
            var id := snapshot.snapshotId;
            var saved := t.(receipts := AddReceipts(t.receipts, id, receipts));
            && (r.Ok? <==>
                  && objectsPresent && (forall r :: r in receipts ==> BelongsTo(r, snapshot))
                  && (id in t.facts ==> t.facts[id] == snapshot)
                  && ReceiptsOf(saved, id) == ToSet(receipts) && |ReceiptsOf(saved, id)| == |receipts|
                  && ControllerStateOf(snapshot.taskState).Some?)
            && (r.Err? ==> u == t)
  {
    hide AddReceipts, ToSet, BelongsTo, ControllerStateOf, ReceiptsOf, WithController;
    var stored := AddReceipts(t.receipts, snapshot.snapshotId, receipts);
    SameReceipts(t.(facts := t.facts[snapshot.snapshotId := snapshot], receipts := stored), t.(receipts := stored), snapshot.snapshotId);
  }

  /** The tables with the facts and receipts of a save. */
  ghost function WithFacts(t: Tables, snapshot: RuntimeSnapshot, receipts: seq<EffectReceipt>): Tables {
    t.(facts := t.facts[snapshot.snapshotId := snapshot], receipts := AddReceipts(t.receipts, snapshot.snapshotId, receipts))
  }

  ghost predicate AwaitsSnapshot(t: Tables, run: Id) {
    run in t.controllers && t.controllers[run].state == ControllerRunning && t.controllers[run].snapshotId.None?
  }

  lemma SaveWrites(t: Tables, snapshot: RuntimeSnapshot, receipts: seq<EffectReceipt>, objectsPresent: bool, now: Time)
    requires SaveFacts(t, snapshot, receipts, objectsPresent, now).1.Ok?
    ensures ControllerStateOf(snapshot.taskState).Some?
    ensures var (u, saved, run) := (SaveFacts(t, snapshot, receipts, objectsPresent, now).0, WithFacts(t, snapshot, receipts), snapshot.run);
            u == if run !in t.controllers then
                   WithController(saved, run, Controller(Some(snapshot.snapshotId), ControllerStateOf(snapshot.taskState).value, [], None, None, None, now))
                 else if AwaitsSnapshot(t, run) then
                   WithController(saved, run, t.controllers[run].(snapshotId := Some(snapshot.snapshotId), updatedAt := now))
                 else saved
  {
    hide AddReceipts, ToSet, BelongsTo, ControllerStateOf, ReceiptsOf, WithController;
  }

  lemma SavedController(t: Tables, snapshot: RuntimeSnapshot, receipts: seq<EffectReceipt>, objectsPresent: bool, now: Time)
    requires SaveFacts(t, snapshot, receipts, objectsPresent, now).1.Ok?
    ensures var u := SaveFacts(t, snapshot, receipts, objectsPresent, now).0;
            && u.facts == WithFacts(t, snapshot, receipts).facts && u.receipts == WithFacts(t, snapshot, receipts).receipts
            && ControllerSaved(t, u, snapshot)
  {
    SaveWrites(t, snapshot, receipts, objectsPresent, now);
    hide SaveFacts, AddReceipts, ControllerStateOf, StateIs;
    ControllerStateIs(snapshot.taskState);
  }

  ghost predicate SameFacts(t: Tables, u: Tables) {
    u.facts == t.facts && u.receipts == t.receipts
  }

  lemma WritesKeepFacts()
    ensures forall t, run, events :: SameFacts(t, Append(t, run, events))
    ensures forall t, o, row :: SameFacts(t, WithRow(t, o, row))
  {
    hide Log;
  }

  lemma CompleteKeepsFacts(t: Tables, o: Id, worker: Id, outcome: Outcome, control: Option<Id>, now: Time)
    ensures SameFacts(t, Complete(t, o, worker, outcome, control, now).0)
  {
    if o in t.operations {
      RecordKeepsFacts(t, o, outcome, now);
    }
    hide Record, Completable, Decodes, Closable, OutcomeControlError;
  }

  lemma RecordKeepsFacts(t: Tables, o: Id, outcome: Outcome, now: Time)
    requires o in t.operations
    ensures SameFacts(t, Record(t, o, outcome, now).0)
  {
    hide Append, WithRow, Log, ToTaskSnapshot, PauseEvents, ResultEvents, StoredPause, StoredResult, ValidResult, ValidPaused;
    hide OutcomeState, FailureEvent, ReleasedRow, Last;
    WritesKeepFacts();
  }

  lemma StartKeepsFacts(t: Tables, o: Id, row: Operation, freshRun: Id, now: Time)
    ensures SameFacts(t, StartAttempt(t, o, row, freshRun, now))
  {
    hide Log, MaxAttempt, Attempts;
  }

  lemma RowKeepsFacts(o: Id, row: Operation, run: Id, now: Time)
    ensures forall t, claimed :: SameFacts(t, AnnounceRunning(WithRow(t, o, claimed), row, run, now))
  {
    hide Log;
  }

  lemma ClaimKeepsFacts(t: Tables, o: Id, worker: Id, lease: int, freshRun: Id, now: Time)
    requires o in t.operations ==> t.operations[o].execution in t.submissions
    ensures SameFacts(t, ClaimNext(t, o, worker, lease, freshRun, now).0)
  {
    hide StartAttempt, AnnounceRunning, WithRow, Claimable, Finished;
    if o in t.operations {
      var row := t.operations[o];
      StartKeepsFacts(t, o, row, freshRun, now);
      RowKeepsFacts(o, row, freshRun, now);
      RowKeepsFacts(o, row, row.run, now);
    }
  }

  lemma FailureKeepsFacts(t: Tables, q: Id, now: Time)
    requires q in t.requests
    ensures forall error :: SameFacts(t, FailRequest(t, q, error, now))
  {
  }

  lemma ControlKeepsFacts(t: Tables, q: Id, worker: Id, lease: int, now: Time)
    requires ControlSelectable(t, q, now)
    ensures SameFacts(t, ClaimControl(t, q, worker, lease, now).0)
  {
    assert q in t.requests;
    hide ClaimControl, ControlSelectable, SameFacts, Append, FailRequest, Verification, RequestMatches, RecoveryPermission, ReceiptsOf;
    if ClaimControl(t, q, worker, lease, now).1.ControlClaimed? {
      GrantKeepsFacts(t, q, worker, lease, now);
    } else {
      RefusalKeepsFacts(t, q, worker, lease, now);
    }
  }

  lemma GrantKeepsFacts(t: Tables, q: Id, worker: Id, lease: int, now: Time)
    requires ControlSelectable(t, q, now) && ClaimControl(t, q, worker, lease, now).1.ControlClaimed?
    ensures SameFacts(t, ClaimControl(t, q, worker, lease, now).0)
  {
    hide Append, WithRow, Log, RequestMatches, RecoveryPermission, ReceiptsOf, FailRequest, ManualVerificationEvent, ResumeEvent;
    WritesKeepFacts();
  }

  lemma RefusalKeepsFacts(t: Tables, q: Id, worker: Id, lease: int, now: Time)
    requires ControlSelectable(t, q, now) && !ClaimControl(t, q, worker, lease, now).1.ControlClaimed?
    ensures SameFacts(t, ClaimControl(t, q, worker, lease, now).0)
  {
    assert q in t.requests && t.requests[q].operation in t.operations;
    hide ClaimControl, ControlSelectable, Append, FailRequest, Verification, RequestMatches, RecoveryPermission, ReceiptsOf;
    ControlBranches(t, q, worker, lease, now);
    FailureKeepsFacts(t, q, now);
    WritesKeepFacts();
  }

  lemma CancelKeepsFacts(t: Tables, input: CancelInput, selected: Option<Id>, now: Time)
    requires Newest(t, input.task, input.owner, selected)
    ensures SameFacts(t, RequestCancel(t, input, selected, now).0)
  {
    if selected.Some? {
      SelectedExists(t, input.task, input.owner, selected);
      CancellationKeepsFacts(t, selected.value, input, now);
    }
    hide Newest, SameRequest, CancelOperation;
  }

  lemma CancellationKeepsFacts(t: Tables, o: Id, input: CancelInput, now: Time)
    requires o in t.operations
    ensures forall request :: SameFacts(t, CancelOperation(t, o, input, request, now))
  {
    hide Append, WithRow, Log, ReleasedRow;
    WritesKeepFacts();
  }

  lemma ResumeKeepsFacts(t: Tables, input: ResumeInput, selected: Option<Id>, now: Time)
    requires Newest(t, input.task, input.owner, selected)
    ensures SameFacts(t, RequestResume(t, input, selected, now).0)
  {
    hide Newest, SameRequest, ToTaskSnapshot;
  }

  lemma SubmitKeepsFacts(t: Tables, command: Command, owner: Id, existing: Option<Id>, ids: SubmitIds, now: Time)
    requires ExistingFor(t, command.execution, existing)
    ensures SameFacts(t, Submit(t, command, owner, existing, ids, now).0)
  {
    hide ToTaskSnapshot, Log;
  }

  lemma ControllersKeepFacts(t: Tables, s: Step, now: Time)
    requires Enabled(t, s, now) && OnController(s) && !s.SaveFactsStep?
    ensures SameFacts(t, Apply(t, s, now))
  {
    ControllerWritesKeepFacts();
    hide WithController, CancelController, SaveFacts, Enabled;
    match s
    case RecordRunningStep(_, _, _) =>
    case ResumeControllerStep(_, _, _, _) =>
    case FinishControllerStep(_, _, _, _, _, _) =>
    case CancelRuntimeStep(_, _, _) =>
  }

  lemma ControllerWritesKeepFacts()
    ensures forall t, run, c :: SameFacts(t, WithController(t, run, c))
    ensures forall t, run, id, events, now :: SameFacts(t, CancelController(t, run, id, events, now))
  {
  }

  /** Only a save writes recovery facts. */
  lemma OthersKeepFacts(t: Tables, s: Step, now: Time)
    requires Enabled(t, s, now) && !s.SaveFactsStep?
    ensures SameFacts(t, Apply(t, s, now))
  {
    if OnController(s) {
      ControllersKeepFacts(t, s, now);
      hide Apply, Enabled, SameFacts;
    } else {
      hide Complete, ClaimNext, ClaimControl, RequestCancel, RequestResume, Submit, Newest, ExistingFor, ControlSelectable, Publishable;
      match s
      case SubmitStep(command, owner, existing, ids) => SubmitKeepsFacts(t, command, owner, existing, ids, now);
      case CompleteStep(o, worker, outcome, control) => CompleteKeepsFacts(t, o, worker, outcome, control, now);
      case ClaimStep(o, worker, lease, freshRun) => ClaimKeepsFacts(t, o, worker, lease, freshRun, now);
      case ClaimControlStep(q, worker, lease) => ControlKeepsFacts(t, q, worker, lease, now);
      case RequestCancelStep(input, selected) => CancelKeepsFacts(t, input, selected, now);
      case RequestResumeStep(input, selected) => ResumeKeepsFacts(t, input, selected, now);
      case PublishStep(_, _, _) =>
    }
  }

  lemma StepKeepsFacts(t: Tables, s: Step, now: Time)
    requires FactsOk(t) && Enabled(t, s, now)
    ensures FactsOk(Apply(t, s, now)) && FactsEvolve(t, Apply(t, s, now))
  {
    if s.SaveFactsStep? {
      SaveKeepsFacts(t, s.snapshot, s.receipts, s.objectsPresent, now);
    } else {
      OthersKeepFacts(t, s, now);
      hide Apply, Enabled, ControllerStateOf, BelongsTo;
      assert forall k :: k in t.receipts ==> StoredReceiptOk(t, k) && StoredReceiptOk(Apply(t, s, now), k);
    }
  }

  lemma SaveKeepsFacts(t: Tables, snapshot: RuntimeSnapshot, receipts: seq<EffectReceipt>, objectsPresent: bool, now: Time)
    requires FactsOk(t)
    ensures var u := SaveFacts(t, snapshot, receipts, objectsPresent, now).0; FactsOk(u) && FactsEvolve(t, u)
  {
    hide SaveFacts, ControllerStateOf, ControllerSaved, Agrees, StateIs, BelongsTo;
    SavedIff(t, snapshot, receipts, objectsPresent, now);
    ControllerStateIs(snapshot.taskState);
    var u := SaveFacts(t, snapshot, receipts, objectsPresent, now).0;
    if u != t {
      forall k | k in u.receipts ensures StoredReceiptOk(u, k) {
        SavedReceiptOk(t, u, snapshot, receipts, k);
      }
    }
  }

  lemma SavedReceiptOk(t: Tables, u: Tables, snapshot: RuntimeSnapshot, receipts: seq<EffectReceipt>, k: Id)
    requires FactsOk(t) && MaySave(t, snapshot, receipts, true) && IsSaved(t, u, snapshot, receipts) && k in u.receipts
    requires k !in t.receipts ==> u.receipts[k].receipt.receiptId == k
    ensures StoredReceiptOk(u, k)
  {
    hide Agrees, ControllerSaved, ControllerStateOf;
    if k in t.receipts {
      assert StoredReceiptOk(t, k);
    }
  }

  lemma {:induction false} RunKeepsFacts(states: seq<Tables>, steps: seq<TimedStep>, i: nat, j: nat)
    requires IsRun(states, steps) && i <= j < |states|
    ensures FactsOk(states[i]) && FactsOk(states[j]) && FactsEvolve(states[i], states[j])
    decreases j
  {
    hide Apply, Enabled, ControllerStateOf;
    if j > 0 {
      RunKeepsFacts(states, steps, j - 1, j - 1);
      StepKeepsFacts(states[j - 1], steps[j - 1].step, steps[j - 1].now);
      hide IsRun, FactsOk;
      if i < j {
        RunKeepsFacts(states, steps, i, j - 1);
      }
    }
  }

  /**
   In every run, recovery facts are saved exactly when they may be; what is saved stays for good, under
   its own id, with receipts that belong to it; and the same save again succeeds and changes nothing as
   long as no other receipt was added.
   */
  lemma FactsAreKept(states: seq<Tables>, steps: seq<TimedStep>, i: nat, j: nat, snapshot: RuntimeSnapshot,
                     receipts: seq<EffectReceipt>, present: bool)
    requires IsRun(states, steps) && i < j < |states| && steps[i].step == SaveFactsStep(snapshot, receipts, present)
    requires MaySave(states[i], snapshot, receipts, present)
    ensures snapshot.snapshotId in states[j].facts && states[j].facts[snapshot.snapshotId] == snapshot
    ensures forall r :: r in receipts ==>
              r.receiptId in states[j].receipts && states[j].receipts[r.receiptId] == StoredReceipt(snapshot.snapshotId, r)
    ensures MaySave(states[j], snapshot, receipts, true)
            <==> forall k :: k in states[j].receipts && states[j].receipts[k].snapshotId == snapshot.snapshotId ==>
                   states[j].receipts[k].receipt in receipts
  {
    RunKeepsFacts(states, steps, i, i);
    RunKeepsFacts(states, steps, i + 1, j);
    SavedIff(states[i], snapshot, receipts, present, steps[i].now);
    assert states[i + 1] == SaveFacts(states[i], snapshot, receipts, present, steps[i].now).0;
    hide IsRun, SaveFacts, FactsOk;
    SavedStays(states[i], states[i + 1], states[j], snapshot, receipts);
  }

  lemma SavedStays(t: Tables, u: Tables, v: Tables, snapshot: RuntimeSnapshot, receipts: seq<EffectReceipt>)
    requires MaySave(t, snapshot, receipts, true) && IsSaved(t, u, snapshot, receipts) && FactsEvolve(u, v)
    ensures snapshot.snapshotId in v.facts && v.facts[snapshot.snapshotId] == snapshot
    ensures forall r :: r in receipts ==> r.receiptId in v.receipts && v.receipts[r.receiptId] == StoredReceipt(snapshot.snapshotId, r)
    ensures MaySave(v, snapshot, receipts, true)
            <==> forall k :: k in v.receipts && v.receipts[k].snapshotId == snapshot.snapshotId ==> v.receipts[k].receipt in receipts
  {
    hide ControllerSaved;
  }

  /** In every run, the receipts of a stored snapshot are its own: going on from it hangs on its state and on the effects alone. */
  lemma ReceiptsAlwaysBelong(states: seq<Tables>, steps: seq<TimedStep>, i: nat, id: Id)
    requires IsRun(states, steps) && i < |states| && id in states[i].facts
    ensures ReceiptsBelong(states[i], states[i].facts[id], id)
    ensures FactsAllow(states[i], id) <==> states[i].facts[id].taskState.TaskPaused? && states[i].facts[id].resumable
  {
    RunKeepsFacts(states, steps, i, i);
    hide IsRun, ControllerStateOf;
    assert forall k :: k in states[i].receipts ==> StoredReceiptOk(states[i], k);
  }

  // ---------------------------------------------------------------- controllers

  /** The controller runs the run under a lease that ends at `end`; all other controllers are as they were. */
  ghost predicate TakenUntil(t: Tables, u: Tables, run: Id, id: Id, end: Time) {
    && HeldBy(u, run, id) && (forall x :: LeasedBeyond(u, run, x) <==> x < end)
    && u == t.(controllers := t.controllers[run := u.controllers[run]])
    && u.controllers[run].snapshotId == (if run in t.controllers then t.controllers[run].snapshotId else None)
  }

  /** The controller may run the run from its start: it has no controller, is its own, or lapsed before a first snapshot. */
  ghost predicate MayRun(t: Tables, run: Id, id: Id, now: Time) {
    || run !in t.controllers || HeldBy(t, run, id)
    || (t.controllers[run].state == ControllerRunning && t.controllers[run].snapshotId.None?
        && t.controllers[run].leaseExpiresAt.Some? && !LeasedBeyond(t, run, now))
  }

  lemma RunningIff(t: Tables, run: Id, id: Id, lease: int, now: Time)
    ensures var (u, r) := RecordRunning(t, run, id, lease, now);
            && (r.Ok? <==> MayRun(t, run, id, now))
            && (if r.Ok? then TakenUntil(t, u, run, id, now + lease) else u == t)
  {
  }

  /** The run waits at the snapshot: paused there, or with a controller whose lease is over. */
  ghost predicate WaitsAt(t: Tables, run: Id, snapshotId: Id, id: Id, now: Time) {
    && run in t.controllers && t.controllers[run].snapshotId == Some(snapshotId)
    && (t.controllers[run].state.ControllerPaused?
        || (t.controllers[run].state == ControllerRunning && !HeldBy(t, run, id) && !LeasedBeyond(t, run, now)))
  }

  /** A controller resumes a run exactly when it waits at the snapshot it names; nobody else gets in before the new lease is over. */
  lemma ResumedIff(t: Tables, run: Id, snapshotId: Id, id: Id, lease: int, now: Time)
    ensures var (u, r) := ResumeController(t, run, snapshotId, id, lease, now);
            && (r.Acquired? <==> WaitsAt(t, run, snapshotId, id, now))
            && (if r.Acquired? then TakenUntil(t, u, run, id, now + lease) && u.controllers[run].events == [] == r.events else u == t)
            && (r.Acquired? ==> forall other, x :: other != id && x < now + lease ==>
                  ResumeController(u, run, snapshotId, other, lease, x).1 == Busy)
            && (r == Busy <==>
                  && run in t.controllers && t.controllers[run].snapshotId == Some(snapshotId)
                  && t.controllers[run].state == ControllerRunning && !HeldBy(t, run, id) && LeasedBeyond(t, run, now))
            && (r == ControllerMissing <==> run !in t.controllers)
            && (HeldBy(t, run, id) && t.controllers[run].snapshotId == Some(snapshotId) ==> r == Unchanged)
  {
  }

  /** The run is as a controller reported it. */
  ghost predicate Reported(t: Tables, run: Id, next: Option<Id>, state: ControllerState, events: seq<RunEvent>) {
    run in t.controllers && t.controllers[run].snapshotId == next && t.controllers[run].state == state && t.controllers[run].events == events
  }

  /** Giving up leaves what the controller reported; repeating the report succeeds and changes nothing, by anyone and at any time. */
  lemma FinishedIff(t: Tables, run: Id, id: Id, expected: Option<Id>, next: Option<Id>, state: ControllerState,
                    events: seq<RunEvent>, now: Time)
    requires state != ControllerRunning
    ensures var (u, r) := FinishController(t, run, id, expected, next, state, events, now);
            var holds := HeldBy(t, run, id) && t.controllers[run].snapshotId == expected;
            && (r.Ok? <==> Reported(t, run, next, state, events) || (holds && (next.Some? ==> next.value in t.facts)))
            && (r.Err? || Reported(t, run, next, state, events) ==> u == t)
            && (r.Ok? ==>
                  && Reported(u, run, next, state, events)
                  && u == t.(controllers := t.controllers[run := u.controllers[run]])
                  && (!Reported(t, run, next, state, events) ==> forall x :: !LeasedBeyond(u, run, x))
                  && forall other, x :: FinishController(u, run, other, expected, next, state, events, x) == (u, Ok(())))
  {
    FinishWrites(t, run, id, expected, next, state, events, now);
    var (u, r) := FinishController(t, run, id, expected, next, state, events, now);
    if r.Ok? {
      forall other, x ensures FinishController(u, run, other, expected, next, state, events, x) == (u, Ok(())) {
        ReportRepeated(u, run, other, expected, next, state, events, x);
      }
    }
    hide FinishController;
  }

  lemma ReportRepeated(t: Tables, run: Id, id: Id, expected: Option<Id>, next: Option<Id>, state: ControllerState,
                       events: seq<RunEvent>, now: Time)
    requires Reported(t, run, next, state, events) && state != ControllerRunning
    ensures FinishController(t, run, id, expected, next, state, events, now) == (t, Ok(()))
  {
    hide WithController;
  }

  lemma FinishWrites(t: Tables, run: Id, id: Id, expected: Option<Id>, next: Option<Id>, state: ControllerState,
                     events: seq<RunEvent>, now: Time)
    requires state != ControllerRunning
    ensures var (u, r) := FinishController(t, run, id, expected, next, state, events, now);
            var holds := HeldBy(t, run, id) && t.controllers[run].snapshotId == expected;
            && (r.Ok? <==> Reported(t, run, next, state, events) || (holds && (next.Some? ==> next.value in t.facts)))
            && (r.Err? || Reported(t, run, next, state, events) ==> u == t)
            && (r.Ok? ==>
                  && Reported(u, run, next, state, events)
                  && u == t.(controllers := t.controllers[run := u.controllers[run]])
                  && (!Reported(t, run, next, state, events) ==> u.controllers[run].leaseExpiresAt.None?))
  {
    hide FinishController, Reported;
    if HeldBy(t, run, id) && t.controllers[run].snapshotId == expected {
      FinishHeld(t, run, id, next, state, events, now);
    } else {
      FinishUnheld(t, run, id, expected, next, state, events, now);
    }
  }

  lemma FinishHeld(t: Tables, run: Id, id: Id, next: Option<Id>, state: ControllerState, events: seq<RunEvent>, now: Time)
    requires HeldBy(t, run, id) && state != ControllerRunning
    ensures var (u, r) := FinishController(t, run, id, t.controllers[run].snapshotId, next, state, events, now);
            && !Reported(t, run, next, state, events)
            && (r.Ok? <==> next.Some? ==> next.value in t.facts)
            && (r.Err? ==> u == t)
            && (r.Ok? ==>
                  && Reported(u, run, next, state, events) && u.controllers[run].leaseExpiresAt.None?
                  && u == t.(controllers := t.controllers[run := u.controllers[run]]))
  {
  }

  lemma FinishUnheld(t: Tables, run: Id, id: Id, expected: Option<Id>, next: Option<Id>, state: ControllerState,
                     events: seq<RunEvent>, now: Time)
    requires !(HeldBy(t, run, id) && t.controllers[run].snapshotId == expected)
    ensures var (u, r) := FinishController(t, run, id, expected, next, state, events, now);
            && u == t && (r.Ok? <==> Reported(t, run, next, state, events))
            && (r.Ok? ==> run in t.controllers && t.controllers[run := t.controllers[run]] == t.controllers)
  {
    hide WithController;
  }

  /** A run is cancelled exactly while it runs or is paused; from then on nobody resumes it, and cancelling it again changes nothing. */
  lemma CancelledIff(t: Tables, run: Id, cancellationId: Id, events: seq<RunEvent>, now: Time)
    ensures var (u, r) := CancelRuntime(t, run, cancellationId, events, now);
            && (r.Acquired? <==>
                  run in t.controllers && (t.controllers[run].state == ControllerRunning || t.controllers[run].state.ControllerPaused?))
            && (r == Unchanged <==> CancelledController(t, run))
            && (!r.Acquired? ==> u == t)
            && (r.Acquired? ==>
                  && r.events == events && CancelledController(u, run)
                  && u == t.(controllers := t.controllers[run := u.controllers[run]])
                  && u.controllers[run].snapshotId == t.controllers[run].snapshotId
                  && u.controllers[run].cancellationId == Some(cancellationId) && u.controllers[run].events == events
                  && (forall id :: !HeldBy(u, run, id)) && (forall x :: !LeasedBeyond(u, run, x))
                  && forall snapshotId, id, lease, x :: ResumeController(u, run, snapshotId, id, lease, x).1 == Denied)
  {
    var (u, r) := CancelRuntime(t, run, cancellationId, events, now);
    if r.Acquired? {
      assert u.controllers[run].state == ControllerCancelled && u.controllers[run].leaseExpiresAt.None?;
      hide CancelController;
    }
  }
}
