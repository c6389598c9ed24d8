/** The invariant over all tables, and that every transaction keeps it. */
module TaskInvariants {
  import opened Wrappers
  import opened TaskTypes
  import opened TaskTransactions
  import opened TaskLogs
  import CanonicalJson

  // ---------------------------------------------------------------- the invariant, row by row

  /** The stored payload agrees with the operation's state and belongs to its current run. */
  ghost predicate PayloadOk(row: Operation) {
    match row.payload
    case NoPayload => row.state == Accepted || row.state == Running
    case CancelMark => row.state == Cancelled
    case Stored(PausedWith(p)) =>
      ValidPaused(p) && p.snapshot.run == row.run && p.snapshot.task == row.task
      && (row.state == Running || row.state == Paused(p.kind))
    case Stored(ResultWith(r)) =>
      ValidResult(r) && r.run == row.run && r.task == row.task && row.state == OutcomeState(ResultWith(r))
    case Stored(Explicit(s, _, _)) => row.state == OutcomeState(row.payload.outcome) || (row.state == Running && s == Retryable)
  }

  /** What the state says of the current run's log. */
  ghost predicate StateFitsLog(row: Operation, log: seq<RunEvent>) {
    && (row.state == Accepted ==> |log| == 1 && log[0].eventType == StateChanged)
    && (row.state == Running ==> HasPause(log) || JustStarted(log))
    && (row.state.Paused? ==> HasPause(log))
    && (row.state == Cancelled ==> log != [] && Last(log).taskState == TaskCancelled)
    && (row.state == Completed ==> Concluded(log))
    && (row.state == Accepted || row.state == Running || row.state.Paused? ==> Unfinished(log))
  }

  /** Exactly the running operations are leased. */
  ghost predicate LeaseOk(row: Operation) {
    if row.state == Running then row.worker.Some? && row.leaseExpiresAt.Some?
    else row.worker.None? && row.leaseExpiresAt.None?
  }

  ghost predicate RowOk(row: Operation, log: seq<RunEvent>) {
    PayloadOk(row) && StateFitsLog(row, log) && LeaseOk(row)
  }

  ghost predicate HasAttempt(t: Tables, o: Id, a: nat) {
    exists r :: r in t.runs && t.runs[r].operation == o && t.runs[r].attempt == a
  }

  /** The attempts of `o` are numbered 1..k, each once, and the current run is attempt k. */
  ghost predicate AttemptsOk(t: Tables, o: Id)
    requires o in t.operations
  {
    var current := t.operations[o].run;
    && current in t.runs && t.runs[current].operation == o
    && (forall r :: r in t.runs && t.runs[r].operation == o ==> 1 <= t.runs[r].attempt <= t.runs[current].attempt)
    && (forall r, s | r in t.runs && s in t.runs && t.runs[r].operation == o == t.runs[s].operation ::
          t.runs[r].attempt == t.runs[s].attempt ==> r == s)
    && (forall a :: 1 <= a <= t.runs[current].attempt ==> HasAttempt(t, o, a))
  }

  ghost predicate CancelledController(t: Tables, run: Id) {
    run in t.controllers && t.controllers[run].state == ControllerCancelled
  }

  ghost predicate OperationOk(t: Tables, o: Id)
    requires o in t.operations
  {
    var row := t.operations[o];
    && row.execution in t.submissions
    && AttemptsOk(t, o)
    && RowOk(row, Log(t, row.run))
    && (row.state == Cancelled ==> CancelledController(t, row.run))
  }

  ghost predicate RunOk(t: Tables, r: Id)
    requires r in t.runs
  {
    && t.runs[r].operation in t.operations
    && r in t.events
    && LogOk(t.events[r], r, t.operations[t.runs[r].operation].task)
  }

  ghost predicate RequestOk(t: Tables, q: Id)
    requires q in t.requests
  {
    && t.requests[q].operation in t.operations
    && t.requests[q].run in t.runs
    && t.runs[t.requests[q].run].operation == t.requests[q].operation
  }

  ghost predicate HasMessage(t: Tables, o: Id) {
    exists m :: m in t.outbox && t.outbox[m].operation == o
  }

  /** Every operation has exactly one outbox row. */
  ghost predicate OutboxOk(t: Tables) {
    && (forall m :: m in t.outbox ==> t.outbox[m].operation in t.operations)
    && (forall m, n :: m in t.outbox && n in t.outbox && t.outbox[m].operation == t.outbox[n].operation ==> m == n)
    && (forall o :: o in t.operations ==> HasMessage(t, o))
  }

  ghost predicate HasOperation(t: Tables, execution: Id) {
    exists o :: o in t.operations && t.operations[o].execution == execution
  }

  /** Every submission has exactly one operation, and the fingerprint of its command. */
  ghost predicate SubmissionsOk(t: Tables) {
    && (forall o, p :: o in t.operations && p in t.operations && t.operations[o].execution == t.operations[p].execution ==> o == p)
    && (forall e :: e in t.submissions ==> HasOperation(t, e))
    && (forall e :: e in t.submissions ==>
          t.submissions[e].fingerprint == CanonicalJson.Canonicalize(t.submissions[e].command.body))
  }

  ghost predicate OperationsOk(t: Tables) {
    forall o :: o in t.operations ==> OperationOk(t, o)
  }

  ghost predicate RunsOk(t: Tables) {
    (forall r :: r in t.runs ==> RunOk(t, r)) && t.events.Keys == t.runs.Keys
  }

  ghost predicate RequestsOk(t: Tables) {
    forall q :: q in t.requests ==> RequestOk(t, q)
  }

  ghost predicate Inv(t: Tables) {
    OperationsOk(t) && RunsOk(t) && RequestsOk(t) && OutboxOk(t) && SubmissionsOk(t)
  }

  /** What the invariant says of one operation. */
  lemma InvAt(t: Tables, o: Id)
    requires Inv(t) && o in t.operations
    ensures t.operations[o].execution in t.submissions
    ensures t.operations[o].run in t.runs && t.operations[o].run in t.events
    ensures t.runs[t.operations[o].run].operation == o
    ensures LogOk(Log(t, t.operations[o].run), t.operations[o].run, t.operations[o].task)
    ensures RowOk(t.operations[o], Log(t, t.operations[o].run))
  {
    hide RequestsOk, OutboxOk, SubmissionsOk, RowOk, LogOk, CancelledController;
    assert OperationOk(t, o);
    assert RunOk(t, t.operations[o].run);
  }

  // ---------------------------------------------------------------- how the tables may change

  /** No controller leaves the cancelled state. */
  ghost predicate CancelledStay(t: Tables, u: Tables) {
    forall r :: CancelledController(t, r) ==> CancelledController(u, r)
  }

  /**
   An operation keeps its identity, moves only to fresh runs, stays as it is once it is finished, unless
   it is cancelled, and is frozen once it has ended: a partial one is finished, but may still be cancelled.
   */
  ghost predicate RowEvolves(t: Tables, u: Tables, o: Id)
    requires o in t.operations
  {
    && o in u.operations
    && var (before, after) := (t.operations[o], u.operations[o]);
    && after.execution == before.execution && after.task == before.task && after.createdAt == before.createdAt
    && (after.run == before.run || after.run !in t.runs)
    && (Uncancellable(before.state) ==> after == before)
    && (Finished(before.state) ==> after == before || after.state == Cancelled)
  }

  /** `r` is the current run of an operation that has not ended. */
  ghost predicate Live(t: Tables, r: Id) {
    && r in t.runs && t.runs[r].operation in t.operations
    && t.operations[t.runs[r].operation].run == r
    && !Uncancellable(t.operations[t.runs[r].operation].state)
  }

  /** A run keeps its attempt number; its log only grows, and only while it is current. */
  ghost predicate RunEvolves(t: Tables, u: Tables, r: Id)
    requires r in t.runs
  {
    && r in u.runs && u.runs[r] == t.runs[r]
    && Log(t, r) <= Log(u, r)
    && (Log(u, r) != Log(t, r) ==> Live(t, r))
  }

  ghost predicate Evolves(t: Tables, u: Tables) {
    && (forall o :: o in t.operations ==> RowEvolves(t, u, o))
    && (forall r :: r in t.runs ==> RunEvolves(t, u, r))
    && (forall e :: e in t.submissions ==> e in u.submissions && u.submissions[e] == t.submissions[e])
    && CancelledStay(t, u)
  }

  lemma EvolvesTransitive(t: Tables, u: Tables, v: Tables)
    requires RunsOk(t) && Evolves(t, u) && Evolves(u, v)
    ensures Evolves(t, v)
  {
    hide LogOk;
    forall o | o in t.operations ensures RowEvolves(t, v, o) {
      assert RowEvolves(t, u, o) && RowEvolves(u, v, o);
      if u.operations[o].run in t.runs {
        assert RunEvolves(t, u, u.operations[o].run);
      }
      if v.operations[o].run in t.runs {
        assert RunEvolves(t, u, v.operations[o].run);
      }
    }
    forall r | r in t.runs ensures RunEvolves(t, v, r) {
      assert RunEvolves(t, u, r) && RunEvolves(u, v, r);
      assert RunOk(t, r);
      var o := t.runs[r].operation;
      assert RowEvolves(t, u, o);
    }
  }

  /** What a step does to an orderly database: it stays orderly, and it evolves. */
  ghost predicate Advances(t: Tables, u: Tables) {
    Inv(u) && Evolves(t, u)
  }

  lemma AdvancesTransitive(t: Tables, u: Tables, v: Tables)
    requires Inv(t) && Advances(t, u) && Advances(u, v)
    ensures Advances(t, v)
  {
    hide OperationsOk, RunsOk, RequestsOk, OutboxOk, SubmissionsOk, Evolves;
    EvolvesTransitive(t, u, v);
  }

  lemma AdvancesSelf(t: Tables)
    requires Inv(t)
    ensures Advances(t, t)
  {
    hide OperationsOk, RunsOk, RequestsOk, OutboxOk, SubmissionsOk, CancelledController;
  }

  // ---------------------------------------------------------------- frames

  /** The requests of `u` are rows that satisfied RequestOk in `t`, apart from columns it does not mention. */
  ghost predicate RequestsKeepIds(t: Tables, u: Tables) {
    forall q :: q in u.requests ==>
      && u.requests[q].operation in t.operations
      && u.requests[q].run in t.runs
      && t.runs[u.requests[q].run].operation == u.requests[q].operation
  }

  /** The outbox rows of `u` are those of `t`, for the same operations. */
  ghost predicate OutboxKeepsIds(t: Tables, u: Tables) {
    u.outbox.Keys == t.outbox.Keys && forall m :: m in t.outbox ==> u.outbox[m].operation == t.outbox[m].operation
  }

  /**
   `u` is `t` with operation `o` rewritten to `row` on the same run, and `events` appended to that
   run's log; the other tables change only in columns the invariant does not mention.
   */
  ghost predicate Rewrites(t: Tables, u: Tables, o: Id, row: Operation, events: seq<RunEvent>) {
    && o in t.operations
    && var old_ := t.operations[o];
    && row.run == old_.run && row.task == old_.task && row.execution == old_.execution && row.createdAt == old_.createdAt
    && u.operations == t.operations[o := row]
    && u.runs == t.runs
    && u.submissions == t.submissions
    && u.events == (if events == [] then t.events else t.events[row.run := Log(t, row.run) + events])
    && CancelledStay(t, u) && RequestsKeepIds(t, u) && OutboxKeepsIds(t, u)
  }

  lemma OutboxFrame(t: Tables, u: Tables)
    requires OutboxOk(t) && OutboxKeepsIds(t, u) && u.operations.Keys == t.operations.Keys
    ensures OutboxOk(u)
  {
    forall o | o in u.operations ensures HasMessage(u, o) {
      assert HasMessage(t, o);
    }
  }

  lemma SubmissionsFrame(t: Tables, u: Tables)
    requires SubmissionsOk(t) && u.submissions == t.submissions && u.operations.Keys == t.operations.Keys
    requires forall o :: o in t.operations ==> u.operations[o].execution == t.operations[o].execution
    ensures SubmissionsOk(u)
  {
    forall e | e in u.submissions ensures HasOperation(u, e) {
      assert HasOperation(t, e);
      var o :| o in t.operations && t.operations[o].execution == e;
      assert u.operations[o].execution == e;
    }
  }

  lemma AttemptsFrame(t: Tables, u: Tables, o: Id)
    requires o in t.operations && o in u.operations && u.operations[o].run == t.operations[o].run
    requires AttemptsOk(t, o) && u.runs == t.runs
    ensures AttemptsOk(u, o)
  {
    var k := t.runs[t.operations[o].run].attempt;
    forall a | 1 <= a <= k ensures HasAttempt(u, o, a) {
      assert HasAttempt(t, o, a);
    }
  }

  /** An operation whose row and log did not change. */
  lemma OperationFrame(t: Tables, u: Tables, o: Id)
    requires o in t.operations && OperationOk(t, o) && o in u.operations && u.operations[o] == t.operations[o]
    requires u.runs == t.runs && u.submissions == t.submissions && CancelledStay(t, u)
    requires Log(u, t.operations[o].run) == Log(t, t.operations[o].run)
    ensures OperationOk(u, o)
  {
    hide RowOk;
    AttemptsFrame(t, u, o);
  }

  lemma LogsAfterRewrite(t: Tables, u: Tables, o: Id, row: Operation, events: seq<RunEvent>)
    requires Rewrites(t, u, o, row, events)
    ensures Log(u, row.run) == Log(t, row.run) + events
    ensures forall r :: r != row.run ==> Log(u, r) == Log(t, r)
  {
    hide CancelledStay, RequestsKeepIds, OutboxKeepsIds;
    assert Log(t, row.run) + [] == Log(t, row.run);
  }

  /** A rewrite that leaves the row in order keeps the invariant. */
  lemma RewriteKeepsInv(t: Tables, u: Tables, o: Id, row: Operation, events: seq<RunEvent>)
    requires Inv(t) && Rewrites(t, u, o, row, events)
    requires Continues(Log(t, row.run), events, row)
    requires RowOk(row, Log(t, row.run) + events)
    requires row.state == Cancelled ==> CancelledController(u, row.run)
    requires !Uncancellable(t.operations[o].state) && (Finished(t.operations[o].state) ==> row.state == Cancelled)
    ensures Advances(t, u)
  {
    hide OperationsOk, RunsOk, RequestsOk, OutboxOk, SubmissionsOk, Continues, RowOk, CancelledStay, Evolves;
    RewriteKeepsOperations(t, u, o, row, events);
    RewriteKeepsRuns(t, u, o, row, events);
    assert RequestsOk(u) by {
      RequestsFrame(t, u);
    }
    OutboxFrame(t, u);
    SubmissionsFrame(t, u);
    RewriteEvolves(t, u, o, row, events);
  }

  lemma RewriteEvolves(t: Tables, u: Tables, o: Id, row: Operation, events: seq<RunEvent>)
    requires OperationsOk(t) && Rewrites(t, u, o, row, events)
    requires !Uncancellable(t.operations[o].state) && (Finished(t.operations[o].state) ==> row.state == Cancelled)
    ensures Evolves(t, u)
  {
    hide OperationsOk, RequestsKeepIds, OutboxKeepsIds, CancelledStay;
    RunOfOperation(t, o);
    LogsAfterRewrite(t, u, o, row, events);
    forall r | r in t.runs ensures RunEvolves(t, u, r) {
    }
  }

  lemma RequestsFrame(t: Tables, u: Tables)
    requires RequestsKeepIds(t, u) && u.runs == t.runs && u.operations.Keys == t.operations.Keys
    ensures RequestsOk(u)
  {
  }

  lemma RewriteKeepsOperations(t: Tables, u: Tables, o: Id, row: Operation, events: seq<RunEvent>)
    requires OperationsOk(t) && Rewrites(t, u, o, row, events)
    requires RowOk(row, Log(t, row.run) + events)
    requires row.state == Cancelled ==> CancelledController(u, row.run)
    ensures OperationsOk(u)
  {
    hide RowOk, AttemptsOk, CancelledStay, RequestsKeepIds, OutboxKeepsIds;
    LogsAfterRewrite(t, u, o, row, events);
    forall p | p in u.operations ensures OperationOk(u, p) {
      assert OperationOk(t, p);
      if p == o {
        AttemptsFrame(t, u, p);
      } else {
        CurrentRunsDiffer(t, o, p);
        OperationFrame(t, u, p);
      }
    }
  }

  lemma CurrentRunsDiffer(t: Tables, o: Id, p: Id)
    requires o in t.operations && p in t.operations && o != p && OperationsOk(t)
    ensures t.operations[o].run != t.operations[p].run
  {
    hide RowOk;
    assert OperationOk(t, o) && OperationOk(t, p);
  }

  lemma RunOfOperation(t: Tables, o: Id)
    requires OperationsOk(t) && o in t.operations
    ensures t.operations[o].run in t.runs && t.runs[t.operations[o].run].operation == o
  {
    hide RowOk;
    assert OperationOk(t, o);
  }

  lemma RewriteKeepsRuns(t: Tables, u: Tables, o: Id, row: Operation, events: seq<RunEvent>)
    requires OperationsOk(t) && RunsOk(t) && Rewrites(t, u, o, row, events)
    requires Continues(Log(t, row.run), events, row)
    ensures RunsOk(u)
  {
    hide OperationsOk, LogOk, Continues, RowOk, CancelledStay, RequestsKeepIds, OutboxKeepsIds;
    RunOfOperation(t, o);
    LogsAfterRewrite(t, u, o, row, events);
    assert u.events.Keys == t.events.Keys by {
      assert RunOk(t, row.run);
    }
    forall r | r in u.runs ensures RunOk(u, r) {
      assert RunOk(t, r);
      if r == row.run {
        ContinuedLogOk(Log(t, r), events, row);
      }
    }
  }

  /** A step that touches no operation, no run and no event. */
  lemma SideStepKeepsInv(t: Tables, u: Tables)
    requires Inv(t)
    requires u.operations == t.operations && u.runs == t.runs && u.submissions == t.submissions && u.events == t.events
    requires CancelledStay(t, u) && RequestsKeepIds(t, u) && OutboxKeepsIds(t, u)
    ensures Advances(t, u)
  {
    hide RowOk, AttemptsOk, LogOk, OutboxOk, SubmissionsOk, RequestsOk, CancelledStay, CancelledController, RequestsKeepIds, OutboxKeepsIds;
    RequestsFrame(t, u);
    OutboxFrame(t, u);
    SubmissionsFrame(t, u);
    forall o | o in u.operations ensures OperationOk(u, o) {
      assert OperationOk(t, o);
      OperationFrame(t, u, o);
    }
    forall r | r in u.runs ensures RunOk(u, r) {
      assert RunOk(t, r);
    }
  }

  /** Requests stored as they were, apart from one rewritten for an operation and a run that belong together. */
  lemma RequestsKeepIdsAfterUpdate(t: Tables, u: Tables, q: Id)
    requires Inv(t) && q in u.requests && u.requests == t.requests[q := u.requests[q]]
    requires u.requests[q].operation in t.operations && u.requests[q].run in t.runs
    requires t.runs[u.requests[q].run].operation == u.requests[q].operation
    ensures RequestsKeepIds(t, u)
  {
    hide OperationsOk, RunsOk, OutboxOk, SubmissionsOk;
    forall p | p in u.requests && p != q ensures RequestOk(t, p) {
    }
  }

  lemma RequestsKeepIdsUnchanged(t: Tables, u: Tables)
    requires Inv(t) && u.requests == t.requests
    ensures RequestsKeepIds(t, u)
  {
    hide OperationsOk, RunsOk, OutboxOk, SubmissionsOk;
    forall p | p in u.requests ensures RequestOk(t, p) {
    }
  }
}
