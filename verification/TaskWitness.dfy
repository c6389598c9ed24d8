/**
 Runs that reach what the theorems leave open: a completed log that does not end in the completion, a
 failed result that leaves no failure in the log, and a second pause that is refused.
 */
module TaskWitness {
  import opened Wrappers
  import opened TaskTypes
  import opened TaskTransactions
  import opened TaskLogs
  import opened TaskInvariants
  import opened TaskSteps
  import opened TaskRuns
  import opened TaskTheorems
  import opened TaskCompletions
  import CanonicalJson

  ghost predicate Reachable(t: Tables) {
    exists states, steps :: IsRun(states, steps) && states[|steps|] == t
  }

  lemma StepIsReachable(t: Tables, s: Step, now: Time)
    requires Reachable(t) && Enabled(t, s, now)
    ensures Reachable(Apply(t, s, now))
  {
    hide Enabled, Apply;
    var states, steps :| IsRun(states, steps) && states[|steps|] == t;
    var (more, longer) := (states + [Apply(t, s, now)], steps + [At(s, now)]);
    forall i | 0 <= i < |longer|
      ensures Enabled(more[i], longer[i].step, longer[i].now) && more[i + 1] == Apply(more[i], longer[i].step, longer[i].now)
    {
      assert more[i] == states[i];
      assert i < |steps| ==> more[i + 1] == states[i + 1] && longer[i] == steps[i];
    }
    assert IsRun(more, longer) && more[|longer|] == Apply(t, s, now);
  }

  lemma ReachableIsOrderly(t: Tables)
    requires Reachable(t)
    ensures Inv(t)
  {
    var states, steps :| IsRun(states, steps) && states[|steps|] == t;
    hide IsRun, Inv, Evolves;
    RunAdvances(states, steps, |steps|, |steps|);
  }

  // ---------------------------------------------------------------- one operation, step by step

  const COMMAND := Command("e", "t", CanonicalJson.Null)
  const SNAPSHOT := RuntimeSnapshot("s", "t", "r", "c", TaskPaused(User), true)

  function Event(state: TaskState): RunEvent {
    RunEvent("t", "r", 1, 0, StateChanged, state, "")
  }

  /** A pause for the user, whose events before it are in the given states. */
  function PauseAfter(states: seq<TaskState>): PausedOutcome {
    PausedOutcome(User, "p", SNAPSHOT, [], seq(|states|, i requires 0 <= i < |states| => Event(states[i])) + [Event(TaskPaused(User))])
  }

  /** The only operation is `row`, of run "r", and the log of that run is in the given states. */
  ghost predicate Only(t: Tables, row: Operation, states: seq<TaskState>) {
    && t.operations == map["o" := row] && t.submissions.Keys == {"e"} && t.submissions["e"].owner == "u"
    && t.runs.Keys == {"r"} && row.run == "r" && row.task == "t" && row.execution == "e"
    && LogStates(Log(t, "r"), states) && t.receipts == map[]
  }

  ghost predicate LogStates(log: seq<RunEvent>, states: seq<TaskState>) {
    |log| == |states| && forall i :: 0 <= i < |log| ==> log[i].taskState == states[i]
  }

  ghost predicate RunsFor(row: Operation) {
    row.state == Running && row.worker == Some("w") && row.leaseExpiresAt == Some(100)
  }

  lemma Submitted() returns (t: Tables)
    ensures Reachable(t) && "o" in t.operations && t.operations["o"].state == Accepted && Only(t, t.operations["o"], [Created])
    ensures t.facts == map[] && t.requests == map[]
  {
    var none: seq<TimedStep> := [];
    assert IsRun([EMPTY], none) && [EMPTY][|none|] == EMPTY;
    var s := SubmitStep(COMMAND, "u", None, SubmitIds("o", "r", "m"));
    StepIsReachable(EMPTY, s, 0);
    t := Apply(EMPTY, s, 0);
    assert Log(EMPTY, "r") == [];
  }

  lemma ClaimedFirst() returns (t: Tables)
    ensures Reachable(t) && "o" in t.operations && RunsFor(t.operations["o"])
    ensures Only(t, t.operations["o"], [Created, Understanding]) && t.facts == map[] && t.requests == map[]
  {
    var before := Submitted();
    hide Reachable;
    var s := ClaimStep("o", "w", 100, "x");
    StepIsReachable(before, s, 0);
    t := Apply(before, s, 0);
  }

  /** The states that a pause brings before its own: an early completion, or none. */
  function Middle(early: bool): seq<TaskState> {
    if early then [TaskCompleted] else []
  }

  lemma {:induction false} AllUnseen(events: seq<RunEvent>, seen: set<TaskState>)
    requires forall i :: 0 <= i < |events| ==> events[i].taskState !in seen
    ensures Unseen(events, seen) == events
  {
    hide Unseen;
    UnseenFront(events, seen);
    if events != [] {
      AllUnseen(events[1..], seen);
      assert events == [events[0]] + events[1..];
    }
  }

  lemma StatesBeforePause(log: seq<RunEvent>)
    requires LogStates(log, [Created, Understanding])
    ensures States(log) == {Created, Understanding}
  {
    assert log[0].taskState in States(log) && log[1].taskState in States(log);
  }

  lemma PausedLog(log: seq<RunEvent>, row: Operation, early: bool, now: Time)
    requires LogStates(log, [Created, Understanding])
    ensures LogStates(log + PauseEvents(log, PauseAfter(Middle(early)), row, now), [Created, Understanding] + Middle(early) + [TaskPaused(User)])
    ensures TaskPaused(User) !in States(log)
  {
    hide Unseen, States;
    StatesBeforePause(log);
    AllUnseen(PauseAfter(Middle(early)).runEvents, States(log));
  }

  ghost predicate PausedRow(row: Operation) {
    && row.state == Paused(User) && row.payload.Stored? && row.payload.outcome.PausedWith?
    && row.payload.outcome.paused.kind == User && row.payload.outcome.paused.snapshot == SNAPSHOT
    && ValidPaused(row.payload.outcome.paused)
  }

  lemma PauseIsRecorded(t: Tables, early: bool, now: Time)
    requires Inv(t) && "o" in t.operations && t.operations["o"].state == Running
    requires Only(t, t.operations["o"], [Created, Understanding])
    ensures var (u, r) := RecordPause(t, "o", PauseAfter(Middle(early)), now);
            && IsCommit(r) && "o" in u.operations && PausedRow(u.operations["o"])
            && Only(u, u.operations["o"], [Created, Understanding] + Middle(early) + [TaskPaused(User)])
            && u.facts == t.facts && u.requests == t.requests
  {
    hide Inv, LogOk, RowOk, PauseEvents, Unseen, LogStates;
    var (row, p) := (t.operations["o"], PauseAfter(Middle(early)));
    InvAt(t, "o");
    var log := Log(t, "r");
    PausedLog(log, row, early, now);
    assert ValidPaused(p);
    PauseAcceptedIff(log, p, row, now);
    hide ValidPaused, States, PauseAfter;
    var events := PauseEvents(log, p, row, now);
    assert events == [] ==> log + events == log;
  }

  lemma PausedOnce(early: bool) returns (t: Tables)
    ensures Reachable(t) && "o" in t.operations && PausedRow(t.operations["o"])
    ensures Only(t, t.operations["o"], [Created, Understanding] + Middle(early) + [TaskPaused(User)])
    ensures t.facts == map[] && t.requests == map[]
  {
    hide Reachable, Inv, RecordPause, LogStates, ValidPaused;
    var before := ClaimedFirst();
    ReachableIsOrderly(before);
    var p := PauseAfter(Middle(early));
    PauseIsRecorded(before, early, 0);
    PauseIsValid(early);
    hide PausedRow, PauseAfter, Only, Log;
    RecordedIsCompleted(before, p, 0);
    hide Complete;
    var s := CompleteStep("o", "w", PausedWith(p), None);
    StepIsReachable(before, s, 0);
    t := Apply(before, s, 0);
  }

  lemma PauseIsValid(early: bool)
    ensures ValidPaused(PauseAfter(Middle(early))) && PauseAfter(Middle(early)).snapshot == SNAPSHOT
  {
  }

  lemma RecordedIsCompleted(t: Tables, p: PausedOutcome, now: Time)
    requires "o" in t.operations && Completable(t, "o", "w", PausedWith(p), now) && ValidPaused(p)
    requires IsCommit(RecordPause(t, "o", p, now).1)
    ensures Complete(t, "o", "w", PausedWith(p), None, now) == RecordPause(t, "o", p, now)
  {
    hide RecordPause, ValidPaused;
  }

  lemma FactsSaved(early: bool) returns (t: Tables)
    ensures Reachable(t) && "o" in t.operations && PausedRow(t.operations["o"])
    ensures Only(t, t.operations["o"], [Created, Understanding] + Middle(early) + [TaskPaused(User)])
    ensures t.facts == map["s" := SNAPSHOT] && t.requests == map[]
  {
    hide Reachable, LogStates, PausedRow;
    var before := PausedOnce(early);
    NothingToSave(before);
    hide AddReceipts, ReceiptsOf, ToSet;
    var s := SaveFactsStep(SNAPSHOT, [], true);
    StepIsReachable(before, s, 0);
    t := Apply(before, s, 0);
  }

  lemma NothingToSave(t: Tables)
    requires t.receipts == map[]
    ensures AddReceipts(t.receipts, "s", []) == map[] && ToSet<EffectReceipt>([]) == {}
    ensures forall u: Tables :: u.receipts == map[] ==> ReceiptsOf(u, "s") == {}
  {
  }

  const RESUME := ResumeInput("q", "t", "u", "s", "k", "q", "u")

  lemma ResumeRequested(early: bool) returns (t: Tables)
    ensures Reachable(t) && "o" in t.operations && PausedRow(t.operations["o"])
    ensures Only(t, t.operations["o"], [Created, Understanding] + Middle(early) + [TaskPaused(User)])
    ensures t.facts == map["s" := SNAPSHOT]
    ensures t.requests == map["q" := ControlRequest("o", "t", "r", "u", Resume("s", "q", "u"), "k", RequestAccepted, None, None, 0, 0)]
  {
    var before := FactsSaved(early);
    hide Reachable, LogStates, ValidPaused;
    var s := RequestResumeStep(RESUME, Some("o"));
    assert OwnedOperation(before, "o", "t", "u");
    StepIsReachable(before, s, 0);
    t := Apply(before, s, 0);
  }

  lemma Resumed(early: bool) returns (t: Tables)
    ensures Reachable(t) && "o" in t.operations && RunsFor(t.operations["o"])
    ensures Only(t, t.operations["o"], [Created, Understanding] + Middle(early) + [TaskPaused(User)] + [Understanding])
  {
    hide Reachable, ValidPaused, LogStates;
    var before := ResumeRequested(early);
    NothingToSave(before);
    var s := ClaimControlStep("q", "w", 100);
    hide ReceiptsOf;
    StepIsReachable(before, s, 0);
    t := Apply(before, s, 0);
    var event := ResumeEvent(before.requests["q"], |Log(before, "r")| + 1, 0);
    assert Log(t, "r") == Log(before, "r") + [event];
    LongerLog(Log(before, "r"), [Created, Understanding] + Middle(early) + [TaskPaused(User)], event);
  }

  lemma LongerLog(log: seq<RunEvent>, states: seq<TaskState>, e: RunEvent)
    requires LogStates(log, states)
    ensures LogStates(log + [e], states + [e.taskState])
  {
  }

  // ---------------------------------------------------------------- what is reached

  const SUCCESS := TaskResult(true, "t", "r", 2, 0,
    [Event(Created), Event(TaskCompleted).(sequence := 2, eventType := RuntimeSucceeded)])

  const FAILURE := TaskResult(false, "t", "r", 1, 0, [Event(TaskFailed).(eventType := RuntimeFailed)])

  lemma ResultsAreValid()
    ensures ValidResult(SUCCESS) && ValidResult(FAILURE)
  {
  }

  /** The running operation may commit any valid outcome of its run that its log admits. */
  lemma Commits(t: Tables, outcome: Outcome) returns (u: Tables)
    requires Reachable(t) && "o" in t.operations && RunsFor(t.operations["o"])
    requires Decodes(outcome) && OutcomeFits(outcome, t.operations["o"]) && PauseFits(outcome, Log(t, t.operations["o"].run))
    ensures u == Complete(t, "o", "w", outcome, None, 0).0 && IsCommit(Complete(t, "o", "w", outcome, None, 0).1)
    ensures Reachable(u) && "o" in u.operations && u.operations["o"].state == OutcomeState(outcome)
    ensures Inv(t) && Inv(u) && Evolves(t, u)
  {
    hide Reachable, Inv, Evolves, Complete, PauseFits, ValidPaused, ValidResult;
    ReachableIsOrderly(t);
    CompletionCommitsIff(t, "o", "w", outcome, None, 0);
    var s := CompleteStep("o", "w", outcome, None);
    StepIsReachable(t, s, 0);
    StepAdvances(t, s, 0);
    u := Apply(t, s, 0);
  }

  /** A committed result appends its events to the log of the run, which stays the current one. */
  lemma ResultIsAppended(t: Tables, r: TaskResult)
    requires "o" in t.operations && Completable(t, "o", "w", ResultWith(r), 0)
    requires IsCommit(Complete(t, "o", "w", ResultWith(r), None, 0).1)
    ensures var (u, row) := (Complete(t, "o", "w", ResultWith(r), None, 0).0, t.operations["o"]);
            && "o" in u.operations && u.operations["o"].run == row.run
            && Log(u, row.run) == Log(t, row.run) + ResultEvents(Log(t, row.run), r.runEvents, row, 0)
  {
    hide ValidResult, StoredResult, ResultEvents, Append, WithRow, ToTaskSnapshot, Completable, OutcomeState, Log;
    var row := t.operations["o"];
    var log := Log(t, row.run);
    var events := ResultEvents(log, r.runEvents, row, 0);
    var u := RecordResult(t, "o", r, 0).0;
    var stored := StoredResult(log, r, row, 0);
    if stored.Some? {
      var released := ReleasedRow(row, OutcomeState(ResultWith(r)), Stored(ResultWith(stored.value)), stored.value.updatedAt);
      AppendedRow(t, "o", released, events);
      AppendedLogs(t, Append(WithRow(t, "o", released), row.run, events), row.run, events);
    }
  }

  /** A completed operation is reached whose log does not end in the completion: a paused outcome brought one. */
  lemma EarlyCompletionIsReached() returns (t: Tables)
    ensures Reachable(t) && "o" in t.operations && t.operations["o"].state == Completed
    ensures var log := Log(t, t.operations["o"].run);
            log != [] && TaskCompleted in States(log) && Last(log).taskState != TaskCompleted
  {
    hide Reachable, ValidResult, Inv, Evolves, Complete, RowOk, ResultEvents;
    var before := Resumed(true);
    ResultsAreValid();
    t := Commits(before, ResultWith(SUCCESS));
    ResultIsAppended(before, SUCCESS);
    InvAt(t, "o");
    var (log, full) := (Log(before, "r"), Log(t, "r"));
    assert log[2].taskState == TaskCompleted && log[3].taskState == TaskPaused(User);
    assert full[2] == log[2] && full[3] == log[3];
    assert full[2].taskState in States(full);
    CompletedIsConcluded(t.operations["o"], full);
  }

  lemma CompletedIsConcluded(row: Operation, log: seq<RunEvent>)
    requires RowOk(row, log) && row.state == Completed
    ensures Concluded(log)
  {
    hide PayloadOk;
  }

  /** An operation that failed for good is reached whose log has no failure: its run had been paused. */
  lemma SilentFailureIsReached() returns (t: Tables)
    ensures Reachable(t) && "o" in t.operations && t.operations["o"].state == FailedFinal
    ensures TaskFailed !in States(Log(t, t.operations["o"].run))
  {
    hide Reachable, ValidResult, Inv, Evolves, Complete, ResultEvents;
    var before := Resumed(false);
    ResultsAreValid();
    t := Commits(before, ResultWith(FAILURE));
    ResultIsAppended(before, FAILURE);
    var (log, full) := (Log(before, "r"), Log(t, "r"));
    assert log[2].taskState == TaskPaused(User);
    FailureAfterPauseIsSilent(log, FAILURE, before.operations["o"], 0);
    assert forall i :: 0 <= i < |full| ==> full[i].taskState != TaskFailed;
  }

  /** A running operation is reached whose worker completes it in time with a valid pause of it, and is refused. */
  lemma SecondPauseIsRefused() returns (t: Tables)
    ensures Reachable(t) && "o" in t.operations
    ensures var outcome := PausedWith(PauseAfter([Researching]));
            && Decodes(outcome) && Completable(t, "o", "w", outcome, 0)
            && !IsCommit(Complete(t, "o", "w", outcome, None, 0).1)
  {
    hide Reachable, Inv, Complete;
    t := Resumed(false);
    ReachableIsOrderly(t);
    var p := PauseAfter([Researching]);
    var log := Log(t, "r");
    assert log[2].taskState in States(log) && log[2].taskState == TaskPaused(User);
    assert p.runEvents[0].taskState in States(p.runEvents) && p.runEvents[0].taskState == Researching;
    assert Researching !in States(log);
    assert !PauseFits(PausedWith(p), log);
    CompletionCommitsIff(t, "o", "w", PausedWith(p), None, 0);
  }
}
