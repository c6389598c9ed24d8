/** What completion does to the event log of an agent run, for every log and every outcome. */
module TaskLogs {
  import opened Wrappers
  import opened TaskTypes
  import opened TaskTransactions

  /** The log of one run: numbered from one, of that run and its task, starting with Created. */
  ghost predicate LogOk(log: seq<RunEvent>, run: Id, task: Id) {
    && log != []
    && log[0].taskState == Created
    && forall i :: 0 <= i < |log| ==> log[i].sequence == i + 1 && log[i].run == run && log[i].task == task
  }

  /** The log of a run that was claimed and has recorded nothing since. */
  ghost predicate JustStarted(log: seq<RunEvent>) {
    && |log| == 2
    && log[0].taskState == Created && log[0].eventType == StateChanged
    && log[1].taskState == Understanding && log[1].eventType == StateChanged
  }

  /** A completion was recorded before a pause. */
  ghost predicate EarlyCompletion(log: seq<RunEvent>) {
    exists i, j :: 0 <= i < j < |log| && log[i].taskState == TaskCompleted && log[j].taskState.TaskPaused?
  }

  /** The log of a run that may go on: it ends in no completion, and has none that no pause follows. */
  ghost predicate Unfinished(log: seq<RunEvent>) {
    && log != [] && Last(log).taskState != TaskCompleted
    && (TaskCompleted in States(log) ==> EarlyCompletion(log))
  }

  /** The log of a completed operation: it ends in the completion, unless one was recorded too early. */
  ghost predicate Concluded(log: seq<RunEvent>) {
    log != [] && (Last(log).taskState == TaskCompleted <==> !EarlyCompletion(log))
  }

  lemma ContinuedLogOk(log: seq<RunEvent>, events: seq<RunEvent>, row: Operation)
    requires LogOk(log, row.run, row.task) && Continues(log, events, row)
    ensures LogOk(log + events, row.run, row.task)
  {
  }

  lemma {:induction false} UnseenOfConcat(a: seq<RunEvent>, b: seq<RunEvent>, seen: set<TaskState>)
    ensures Unseen(a + b, seen) == Unseen(a, seen) + Unseen(b, seen)
  {
    hide Unseen;
    UnseenFront(a, seen);
    UnseenFront(a + b, seen);
    if a == [] {
      assert a + b == b;
    } else {
      UnseenOfConcat(a[1..], b, seen);
      assert (a + b)[1..] == a[1..] + b && (a + b)[0] == a[0];
      PrependConcat(a[0], Unseen(a[1..], seen), Unseen(b, seen));
    }
  }

  lemma PrependConcat<T>(x: T, a: seq<T>, b: seq<T>)
    ensures [x] + (a + b) == ([x] + a) + b
  {
  }

  lemma UnseenFront(events: seq<RunEvent>, seen: set<TaskState>)
    ensures Unseen(events, seen)
            == if events == [] then []
               else if events[0].taskState in seen then Unseen(events[1..], seen)
               else [events[0]] + Unseen(events[1..], seen)
  {
  }

  /** Every unseen event is one of the events, and has an unseen state. */
  lemma {:induction false} UnseenAre(events: seq<RunEvent>, seen: set<TaskState>)
    ensures forall i :: 0 <= i < |Unseen(events, seen)| ==>
              Unseen(events, seen)[i].taskState !in seen
              && exists j :: 0 <= j < |events| && events[j] == Unseen(events, seen)[i]
  {
    if events != [] {
      UnseenAre(events[1..], seen);
      forall i | 0 <= i < |Unseen(events[1..], seen)|
        ensures exists j :: 0 <= j < |events| && events[j] == Unseen(events[1..], seen)[i]
      {
        var j :| 0 <= j < |events[1..]| && events[1..][j] == Unseen(events[1..], seen)[i];
        assert events[j + 1] == events[1..][j];
      }
    }
  }

  lemma {:induction false} UnseenIsEmptyIff(events: seq<RunEvent>, seen: set<TaskState>)
    ensures Unseen(events, seen) == [] <==> States(events) <= seen
  {
    if events != [] {
      UnseenIsEmptyIff(events[1..], seen);
      assert forall i :: 0 <= i < |events[1..]| ==> events[1..][i] == events[i + 1];
      assert events[0].taskState in States(events);
      forall s | s in States(events[1..]) ensures s in States(events) {
        var i :| 0 <= i < |events[1..]| && events[1..][i].taskState == s;
        assert events[i + 1].taskState == s;
      }
      forall s | s in States(events) ensures s == events[0].taskState || s in States(events[1..]) {
        var i :| 0 <= i < |events| && events[i].taskState == s;
        if i > 0 {
          assert events[1..][i - 1].taskState == s;
        }
      }
    }
  }

  /** An unseen last event stays last; what precedes it comes from the events before. */
  lemma UnseenKeepsLast(events: seq<RunEvent>, seen: set<TaskState>)
    requires events != [] && Last(events).taskState !in seen
    ensures Unseen(events, seen) == Unseen(events[..|events| - 1], seen) + [Last(events)]
  {
    assert events == events[..|events| - 1] + [Last(events)];
    UnseenOfConcat(events[..|events| - 1], [Last(events)], seen);
  }

  lemma {:induction false} UnseenAdvances(events: seq<RunEvent>, seen: set<TaskState>)
    requires StagesAdvance(events)
    ensures StagesAdvance(Unseen(events, seen))
  {
    hide Stage, Unseen;
    UnseenFront(events, seen);
    if events != [] {
      assert forall i :: 0 <= i < |events[1..]| ==> events[1..][i] == events[i + 1];
      UnseenAdvances(events[1..], seen);
      UnseenAre(events[1..], seen);
    }
  }

  // ---------------------------------------------------------------- results

  /** Each new event keeps the state and the type of the unseen event it comes from. */
  lemma ResultEventsFollow(log: seq<RunEvent>, events: seq<RunEvent>, row: Operation, now: Time)
    ensures var unseen := Unseen(if HasPause(log) then CompletedOnly(events) else events, States(log));
            var added := ResultEvents(log, events, row, now);
            && |added| == |unseen|
            && forall i :: 0 <= i < |added| ==>
                 added[i].taskState == unseen[i].taskState && added[i].eventType == unseen[i].eventType
  {
    hide Unseen, CompletedOnly, States, HasPause;
  }

  /** The events of a stored result are numbered and its status points at the last, whatever the log. */
  lemma StoredResultIsConsistent(log: seq<RunEvent>, r: TaskResult, row: Operation, now: Time)
    requires LogOk(log, row.run, row.task) && ValidResult(r) && r.run == row.run && r.task == row.task
    ensures StoredResult(log, r, row, now).Some?
    ensures var s := StoredResult(log, r, row, now).value;
            && EventsConsistent(s) && s.run == row.run && s.task == row.task && s.ok == r.ok
            && s.latestEventSequence == |s.runEvents|
  {
    ContinuedLogOk(log, ResultEvents(log, r.runEvents, row, now), row);
  }

  /** A result of a run that was paused is stored with its own events, and meets the contract again. */
  lemma RecoveredResultIsValid(log: seq<RunEvent>, r: TaskResult, row: Operation, now: Time)
    requires LogOk(log, row.run, row.task) && HasPause(log)
    requires ValidResult(r) && r.run == row.run && r.task == row.task
    ensures var s := StoredResult(log, r, row, now); s.Some? && ValidResult(s.value)
  {
    StoredResultIsConsistent(log, r, row, now);
    var events := RecoveredEvents(r.runEvents, now);
    assert forall i :: 0 <= i < |events| ==>
      events[i].taskState == r.runEvents[i].taskState && events[i].eventType == r.runEvents[i].eventType;
  }

  lemma FreshStages(log: seq<RunEvent>, r: TaskResult, unseen: seq<RunEvent>, added: seq<RunEvent>)
    requires JustStarted(log) && ValidResult(r) && r.ok && unseen == Unseen(r.runEvents, {Created, Understanding})
    requires |added| == |unseen| && forall i :: 0 <= i < |added| ==> added[i].taskState == unseen[i].taskState
    ensures StagesAdvance(log + added)
  {
    var seen := {Created, Understanding};
    UnseenAdvances(r.runEvents, seen);
    UnseenAre(r.runEvents, seen);
    FreshStagesAdvance(log, unseen, added);
  }

  /** What a result adds to the log of a run that recorded nothing yet. */
  lemma FreshEvents(log: seq<RunEvent>, r: TaskResult, row: Operation, now: Time)
    requires JustStarted(log) && ValidResult(r)
    ensures var added := ResultEvents(log, r.runEvents, row, now);
            && added != []
            && Last(added).taskState == Last(r.runEvents).taskState
            && Last(added).eventType == Last(r.runEvents).eventType
            && (r.ok ==> forall i :: 0 <= i < |added| - 1 ==> added[i].eventType == StateChanged)
            && (r.ok ==> StagesAdvance(log + added))
  {
    var seen := States(log);
    assert seen == {Created, Understanding} by {
      assert log[0].taskState in seen && log[1].taskState in seen;
    }
    assert !HasPause(log);
    ResultEventsFollow(log, r.runEvents, row, now);
    var unseen, before := Unseen(r.runEvents, seen), r.runEvents[..|r.runEvents| - 1];
    var added := ResultEvents(log, r.runEvents, row, now);
    UnseenKeepsLast(r.runEvents, seen);
    UnseenAre(before, seen);
    assert unseen[|unseen| - 1] == Last(r.runEvents);
    if r.ok {
      forall i | 0 <= i < |added| - 1 ensures added[i].eventType == StateChanged {
        assert unseen[i] == Unseen(before, seen)[i];
      }
      hide ResultEvents, StagesAdvance, States;
      FreshStages(log, r, unseen, added);
    }
  }

  /** A result of a run that was never paused continues the log, and meets the contract. */
  lemma FreshResultIsValid(log: seq<RunEvent>, r: TaskResult, row: Operation, now: Time)
    requires LogOk(log, row.run, row.task) && JustStarted(log)
    requires ValidResult(r) && r.run == row.run && r.task == row.task
    ensures var s := StoredResult(log, r, row, now); s.Some? && ValidResult(s.value)
  {
    hide ResultEvents, StagesAdvance;
    StoredResultIsConsistent(log, r, row, now);
    FreshEvents(log, r, row, now);
    var added := ResultEvents(log, r.runEvents, row, now);
    assert !HasPause(log);
    assert StoredResult(log, r, row, now).value.runEvents == log + added;
    assert Last(log + added) == Last(added);
  }

  lemma FreshStagesAdvance(log: seq<RunEvent>, unseen: seq<RunEvent>, added: seq<RunEvent>)
    requires JustStarted(log) && StagesAdvance(unseen) && |added| == |unseen|
    requires forall i :: 0 <= i < |unseen| ==>
               added[i].taskState == unseen[i].taskState && unseen[i].taskState !in {Created, Understanding}
    ensures StagesAdvance(log + added)
  {
    var events := log + added;
    forall i | 2 <= i < |events| ensures 2 <= Stage(events[i].taskState) < 10 {
      assert events[i] == added[i - 2] && added[i - 2].taskState == unseen[i - 2].taskState;
    }
    forall i, j | 0 <= i < j < |events| ensures Stage(events[i].taskState) < Stage(events[j].taskState) {
      if i >= 2 {
        assert events[i] == added[i - 2] && events[j] == added[j - 2];
        assert Stage(unseen[i - 2].taskState) < Stage(unseen[j - 2].taskState);
      }
    }
  }

  /** The completed events of a successful result are its last event. */
  lemma {:induction false} CompletedOnlyIsLast(events: seq<RunEvent>)
    requires events != [] && StagesAdvance(events) && Last(events).taskState == TaskCompleted
    ensures CompletedOnly(events) == [Last(events)]
  {
    if |events| > 1 {
      assert Stage(events[0].taskState) < Stage(events[|events| - 1].taskState);
      assert forall i :: 0 <= i < |events[1..]| ==> events[1..][i] == events[i + 1];
      CompletedOnlyIsLast(events[1..]);
    } else {
      assert events == [events[0]] && CompletedOnly(events[1..]) == [];
    }
  }

  /**
   A committed success ends the log with the completion exactly when the log had no completion
   before, or ended with one: a paused outcome may have recorded one too early.
   */
  lemma CompletedLogEndsIff(log: seq<RunEvent>, r: TaskResult, row: Operation, now: Time)
    requires LogOk(log, row.run, row.task) && (HasPause(log) || JustStarted(log))
    requires ValidResult(r) && r.ok
    ensures var full := log + ResultEvents(log, r.runEvents, row, now);
            Last(full).taskState == TaskCompleted
            <==> TaskCompleted !in States(log) || Last(log).taskState == TaskCompleted
  {
    var candidates := if HasPause(log) then CompletedOnly(r.runEvents) else r.runEvents;
    CompletedOnlyIsLast(r.runEvents);
    if TaskCompleted !in States(log) {
      assert Last(candidates).taskState == TaskCompleted;
      UnseenKeepsLast(candidates, States(log));
      var unseen, added := Unseen(candidates, States(log)), ResultEvents(log, r.runEvents, row, now);
      ResultEventsFollow(log, r.runEvents, row, now);
      assert unseen[|unseen| - 1] == Last(candidates);
      assert Last(log + added) == added[|added| - 1];
    } else {
      assert HasPause(log);
      assert Unseen([Last(r.runEvents)], States(log)) == [];
      assert log + [] == log;
    }
  }

  lemma UnfinishedGrows(log: seq<RunEvent>, e: RunEvent)
    requires Unfinished(log) && e.taskState != TaskCompleted
    ensures Unfinished(log + [e])
  {
    var grown := log + [e];
    if TaskCompleted in States(grown) {
      var i :| 0 <= i < |grown| && grown[i].taskState == TaskCompleted;
      assert log[i].taskState in States(log);
      var j, k :| 0 <= j < k < |log| && log[j].taskState == TaskCompleted && log[k].taskState.TaskPaused?;
      assert grown[j] == log[j] && grown[k] == log[k];
    }
  }

  lemma PausedIsUnfinished(log: seq<RunEvent>)
    requires log != [] && Last(log).taskState.TaskPaused?
    ensures Unfinished(log)
  {
  }

  /** A committed success concludes the log of a run that was going on. */
  lemma ResultConcludes(log: seq<RunEvent>, r: TaskResult, row: Operation, now: Time)
    requires LogOk(log, row.run, row.task) && (HasPause(log) || JustStarted(log)) && Unfinished(log)
    requires ValidResult(r) && r.ok
    ensures Concluded(log + ResultEvents(log, r.runEvents, row, now))
  {
    hide LogOk, ValidResult;
    CompletedLogEndsIff(log, r, row, now);
    var added := ResultEvents(log, r.runEvents, row, now);
    var full := log + added;
    AddedAreStages(log, r, row, now);
    if EarlyCompletion(log) {
      var i, j :| 0 <= i < j < |log| && log[i].taskState == TaskCompleted && log[j].taskState.TaskPaused?;
      assert full[i] == log[i] && full[j] == log[j];
      assert log[i].taskState in States(log);
    } else if EarlyCompletion(full) {
      EarlierThanAdded(log, added);
    }
  }

  lemma EarlierThanAdded(log: seq<RunEvent>, added: seq<RunEvent>)
    requires EarlyCompletion(log + added) && forall i :: 0 <= i < |added| ==> !added[i].taskState.TaskPaused?
    ensures EarlyCompletion(log)
  {
    var full := log + added;
    var i, j :| 0 <= i < j < |full| && full[i].taskState == TaskCompleted && full[j].taskState.TaskPaused?;
    assert full[j] == log[j] && full[i] == log[i];
  }

  /** No added event of a success is a pause. */
  lemma AddedAreStages(log: seq<RunEvent>, r: TaskResult, row: Operation, now: Time)
    requires ValidResult(r) && r.ok
    ensures var added := ResultEvents(log, r.runEvents, row, now);
            forall i :: 0 <= i < |added| ==> !added[i].taskState.TaskPaused?
  {
    CompletedOnlyIsLast(r.runEvents);
    var candidates := if HasPause(log) then CompletedOnly(r.runEvents) else r.runEvents;
    ResultEventsFollow(log, r.runEvents, row, now);
    UnseenAre(candidates, States(log));
  }

  lemma {:induction false} CompletedOnlyAreCompleted(events: seq<RunEvent>)
    ensures forall i :: 0 <= i < |CompletedOnly(events)| ==> CompletedOnly(events)[i].taskState == TaskCompleted
  {
    if events != [] {
      CompletedOnlyAreCompleted(events[1..]);
    }
  }

  /** After a pause a failed result is stored, but its failure is not recorded in the log. */
  lemma FailureAfterPauseIsSilent(log: seq<RunEvent>, r: TaskResult, row: Operation, now: Time)
    requires HasPause(log) && ValidResult(r) && !r.ok
    ensures var added := ResultEvents(log, r.runEvents, row, now);
            forall i :: 0 <= i < |added| ==> added[i].taskState != TaskFailed
  {
    hide ValidResult, Unseen, CompletedOnly;
    CompletedOnlyAreCompleted(r.runEvents);
    UnseenAre(CompletedOnly(r.runEvents), States(log));
    ResultEventsFollow(log, r.runEvents, row, now);
  }

  /** A failed result is recorded in the log, as its last event, exactly when the run was never paused. */
  lemma FailureIsRecordedIff(log: seq<RunEvent>, r: TaskResult, row: Operation, now: Time)
    requires (HasPause(log) || JustStarted(log)) && ValidResult(r) && !r.ok
    ensures var added := ResultEvents(log, r.runEvents, row, now);
            added != [] && Last(added).taskState == TaskFailed <==> !HasPause(log)
  {
    if HasPause(log) {
      FailureAfterPauseIsSilent(log, r, row, now);
    } else {
      FreshEvents(log, r, row, now);
    }
  }

  // ---------------------------------------------------------------- pauses

  /** The paused contract asks of what is stored that it ends in its pause. */
  lemma PauseValidIff(log: seq<RunEvent>, p: PausedOutcome, row: Operation, now: Time)
    requires LogOk(log, row.run, row.task)
    requires ValidPaused(p) && p.snapshot.run == row.run && p.snapshot.task == row.task
    ensures ValidPaused(StoredPause(log, p, row, now)) <==> Last(log + PauseEvents(log, p, row, now)).taskState == TaskPaused(p.kind)
  {
    hide PauseEvents;
    assert (log + PauseEvents(log, p, row, now))[0] == log[0];
  }

  /**
   A pause is accepted exactly when its state is not in the log yet, or it brings no new state at
   all: otherwise the log would end in another state and the paused contract refuses it.
   */
  lemma PauseAcceptedIff(log: seq<RunEvent>, p: PausedOutcome, row: Operation, now: Time)
    requires LogOk(log, row.run, row.task)
    requires ValidPaused(p) && p.snapshot.run == row.run && p.snapshot.task == row.task
    ensures ValidPaused(StoredPause(log, p, row, now))
            <==> TaskPaused(p.kind) !in States(log) || States(p.runEvents) <= States(log)
  {
    var seen := States(log);
    var full := log + PauseEvents(log, p, row, now);
    PauseValidIff(log, p, row, now);
    LastOfPause(log, p, row, now);
    hide StoredPause, LogOk, PauseEvents;
    UnseenIsEmptyIff(p.runEvents, seen);
    UnseenAre(p.runEvents, seen);
    if TaskPaused(p.kind) !in seen {
      UnseenKeepsLast(p.runEvents, seen);
    }
  }

  lemma LastOfPause(log: seq<RunEvent>, p: PausedOutcome, row: Operation, now: Time)
    requires log != [] && p.runEvents != [] && Last(p.runEvents).taskState == TaskPaused(p.kind)
    ensures var unseen := Unseen(p.runEvents, States(log));
            Last(log + PauseEvents(log, p, row, now)).taskState == if unseen != [] then Last(unseen).taskState else TaskPaused(p.kind)
  {
    hide Unseen, States, PublicSummary;
  }

  /** A second pause in the same state, reached through a phase the log lacks, is refused. */
  lemma SecondPauseRefused(row: Operation, snapshot: RuntimeSnapshot)
    requires row.run == "r" && row.task == "t"
    requires snapshot.run == "r" && snapshot.task == "t" && snapshot.taskState == TaskPaused(User)
    ensures exists log, p: PausedOutcome ::
              && LogOk(log, "r", "t") && ValidPaused(p) && p.snapshot == snapshot
              && !ValidPaused(StoredPause(log, p, row, 0))
  {
    var e := RunEvent("t", "r", 1, 0, StateChanged, Created, "s");
    var log := [e, e.(sequence := 2, taskState := Understanding), e.(sequence := 3, taskState := TaskPaused(User)),
                e.(sequence := 4, taskState := Understanding)];
    var p := PausedOutcome(User, "s", snapshot, [],
                           [e.(taskState := Researching), e.(sequence := 2, taskState := TaskPaused(User))]);
    assert log[2].taskState in States(log);
    assert p.runEvents[0].taskState in States(p.runEvents);
    assert Researching !in States(log);
    assert LogOk(log, "r", "t") && ValidPaused(p);
    hide States, LogOk, ValidPaused, StoredPause;
    PauseAcceptedIff(log, p, row, 0);
  }

  /** After an accepted pause the log has a pause. */
  lemma PauseLeavesPause(log: seq<RunEvent>, p: PausedOutcome, row: Operation, now: Time)
    requires ValidPaused(StoredPause(log, p, row, now))
    ensures HasPause(log + PauseEvents(log, p, row, now))
  {
    var full := log + PauseEvents(log, p, row, now);
    assert full[|full| - 1].taskState.TaskPaused?;
  }
}
