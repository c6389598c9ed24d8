/**
 Workers that hold one claim at a time and may crash, over the database: whatever they interleave,
 a completion is committed only for the latest claim of its operation.
 */
module TaskFencing {
  import opened Wrappers
  import opened TaskTypes
  import opened TaskTransactions
  import opened TaskInvariants
  import opened TaskSteps
  import opened TaskRuns
  import opened TaskTheorems

  /** The `stamp`-th claim of an operation, ordinary or for a control request. */
  datatype Token = Token(operation: Id, stamp: nat)

  /** The database, the claim each worker believes it holds, and what happened to each operation. */
  datatype World = World(tables: Tables, held: map<Id, Token>, claims: map<Id, nat>, commits: map<Id, seq<nat>>)

  datatype Move =
    | Claim(worker: Id, operation: Id, lease: int, freshRun: Id)
    | TakeControl(worker: Id, request: Id, lease: int)
    | Finish(worker: Id, outcome: Outcome, control: Option<Id>)
    | Crash(worker: Id)
    | Elsewhere(step: Step)

  function Claims(w: World, o: Id): nat {
    if o in w.claims then w.claims[o] else 0
  }

  function Commits(w: World, o: Id): seq<nat> {
    if o in w.commits then w.commits[o] else []
  }

  function Granted(w: World, tables: Tables, worker: Id, o: Id): World {
    var stamp := Claims(w, o) + 1;
    World(tables, w.held[worker := Token(o, stamp)], w.claims[o := stamp], w.commits)
  }

  /** A worker claims only when idle, and completes only what it claimed; other steps are not its business. */
  ghost predicate Possible(w: World, m: Move, now: Time) {
    match m
    case Claim(worker, o, lease, freshRun) => worker !in w.held && Enabled(w.tables, ClaimStep(o, worker, lease, freshRun), now)
    case TakeControl(worker, request, lease) => worker !in w.held && ControlSelectable(w.tables, request, now)
    case Finish(worker, _, _) => worker in w.held
    case Crash(_) => true
    case Elsewhere(step) =>
      !step.ClaimStep? && !step.ClaimControlStep? && !step.CompleteStep? && Enabled(w.tables, step, now)
  }

  ghost function Moved(w: World, m: Move, now: Time): World
    requires Possible(w, m, now)
  {
    match m
    case Claim(worker, o, lease, freshRun) =>
      var (u, r) := ClaimNext(w.tables, o, worker, lease, freshRun, now);
      if r.Claimed? then Granted(w, u, worker, o) else w.(tables := u)
    case TakeControl(worker, request, lease) =>
      var (u, r) := ClaimControl(w.tables, request, worker, lease, now);
      if r.ControlClaimed? then Granted(w, u, worker, w.tables.requests[request].operation) else w.(tables := u)
    case Finish(worker, outcome, control) =>
      var token := w.held[worker];
      var (u, r) := Complete(w.tables, token.operation, worker, outcome, control, now);
      if IsCommit(r) then
        w.(tables := u, commits := w.commits[token.operation := Commits(w, token.operation) + [token.stamp]])
      else w.(tables := u)
    case Crash(worker) => w.(held := w.held - {worker})
    case Elsewhere(step) => w.(tables := Apply(w.tables, step, now))
  }

  /** The stamps of the committed claims increase, and the latest claim is not among them while it runs. */
  ghost predicate StampsOk(stamps: seq<nat>, claims: nat, running: bool) {
    && (forall i :: 0 <= i < |stamps| ==> 1 <= stamps[i] <= claims)
    && (forall i, j :: 0 <= i < j < |stamps| ==> stamps[i] < stamps[j])
    && (running ==> 1 <= claims && forall i :: 0 <= i < |stamps| ==> stamps[i] < claims)
  }

  ghost predicate RunningFor(t: Tables, o: Id, worker: Id) {
    o in t.operations && t.operations[o].state == Running && t.operations[o].worker == Some(worker)
  }

  ghost predicate IsRunning(t: Tables, o: Id) {
    o in t.operations && t.operations[o].state == Running
  }

  /** What a worker holds is the latest claim of its operation while the operation runs for it. */
  ghost predicate HeldOk(w: World) {
    forall worker :: worker in w.held ==>
      && w.held[worker].stamp <= Claims(w, w.held[worker].operation)
      && (RunningFor(w.tables, w.held[worker].operation, worker) ==>
            w.held[worker].stamp == Claims(w, w.held[worker].operation))
  }

  ghost predicate Fenced(w: World) {
    HeldOk(w) && forall o :: StampsOk(Commits(w, o), Claims(w, o), IsRunning(w.tables, o))
  }

  // ---------------------------------------------------------------- what each step does to running operations

  /** `u` runs what `t` runs, for the same workers, or less. */
  ghost predicate NothingStarts(t: Tables, u: Tables) {
    forall o :: IsRunning(u, o) ==> IsRunning(t, o) && u.operations[o].worker == t.operations[o].worker
  }

  /** `o` runs for `worker` in `u`, and the other operations are as in `t`. */
  ghost predicate StartsOnly(t: Tables, u: Tables, o: Id, worker: Id) {
    && RunningFor(u, o, worker)
    && forall p :: p != o ==>
         && (IsRunning(u, p) <==> IsRunning(t, p))
         && (IsRunning(u, p) ==> u.operations[p].worker == t.operations[p].worker)
  }

  lemma ClaimStarts(t: Tables, o: Id, worker: Id, lease: int, freshRun: Id, now: Time)
    requires Enabled(t, ClaimStep(o, worker, lease, freshRun), now)
    ensures var (u, r) := ClaimNext(t, o, worker, lease, freshRun, now);
            if r.Claimed? then StartsOnly(t, u, o, worker) else u == t
  {
    ClaimEffect(t, o, worker, lease, freshRun, now);
    hide ClaimNext;
  }

  lemma ClaimEffect(t: Tables, o: Id, worker: Id, lease: int, freshRun: Id, now: Time)
    requires Enabled(t, ClaimStep(o, worker, lease, freshRun), now)
    ensures var (u, r) := ClaimNext(t, o, worker, lease, freshRun, now);
            if r.Claimed? then
              o in u.operations && u.operations == t.operations[o := u.operations[o]] && RunningFor(u, o, worker)
            else u == t
  {
    if o in t.operations {
      var row := t.operations[o];
      StartKeepsOperations(t, o, row, freshRun, now);
      AnnounceKeepsOperations(row, now);
      RowIsWritten(o);
    }
    hide StartAttempt, AnnounceRunning, Claimable, Finished, WithRow;
  }

  lemma RowIsWritten(o: Id)
    ensures forall t, row :: WithRow(t, o, row).operations == t.operations[o := row]
  {
  }

  lemma StartKeepsOperations(t: Tables, o: Id, row: Operation, freshRun: Id, now: Time)
    ensures StartAttempt(t, o, row, freshRun, now).operations == t.operations
  {
    hide Log, MaxAttempt, Attempts;
  }

  lemma AnnounceKeepsOperations(row: Operation, now: Time)
    ensures forall t, run :: AnnounceRunning(t, row, run, now).operations == t.operations
  {
    hide Log;
  }

  lemma ControlStarts(t: Tables, q: Id, worker: Id, lease: int, now: Time)
    requires ControlSelectable(t, q, now)
    ensures var (u, r) := ClaimControl(t, q, worker, lease, now);
            if r.ControlClaimed? then StartsOnly(t, u, t.requests[q].operation, worker) else NothingStarts(t, u)
  {
    hide Log, RequestMatches, RecoveryPermission, ReceiptsOf;
  }

  lemma CompleteStops(t: Tables, o: Id, worker: Id, outcome: Outcome, control: Option<Id>, now: Time)
    ensures var (u, r) := Complete(t, o, worker, outcome, control, now);
            if IsCommit(r) then IsRunning(t, o) && !IsRunning(u, o) && NothingStarts(t, u) && Completable(t, o, worker, outcome, now)
            else u == t
  {
    CompleteEffect(t, o, worker, outcome, control, now);
    hide Complete;
  }

  lemma ElsewhereStartsNothing(t: Tables, s: Step, now: Time)
    requires Enabled(t, s, now) && !s.ClaimStep? && !s.ClaimControlStep? && !s.CompleteStep?
    ensures NothingStarts(t, Apply(t, s, now))
  {
    hide Log, ExistingFor, Newest, CancelOperation, ToTaskSnapshot, SameRequest, OwnedOperation;
    if OnController(s) {
      ControllerStepEffect(t, s, now);
      hide Apply, Enabled;
    } else if s.RequestCancelStep? && s.selected.Some? {
      SelectedExists(t, s.cancel.task, s.cancel.owner, s.selected);
      CancelsOnly(t, s.selected.value, s.cancel, now);
    }
  }

  lemma CancelsOnly(t: Tables, o: Id, input: CancelInput, now: Time)
    requires o in t.operations
    ensures forall request :: NothingStarts(t, CancelOperation(t, o, input, request, now))
  {
    hide CancelOperation;
    forall request ensures NothingStarts(t, CancelOperation(t, o, input, request, now)) {
      CancelEffect(t, o, input, request, now);
    }
  }

  // ---------------------------------------------------------------- the invariant of the world

  lemma GrantKeepsFenced(w: World, u: Tables, worker: Id, o: Id)
    requires Fenced(w) && worker !in w.held && StartsOnly(w.tables, u, o, worker)
    ensures Fenced(Granted(w, u, worker, o))
  {
    var v := Granted(w, u, worker, o);
    assert HeldOk(v) by {
      hide StampsOk;
    }
    forall p ensures StampsOk(Commits(v, p), Claims(v, p), IsRunning(v.tables, p)) {
      hide HeldOk;
      assert StampsOk(Commits(w, p), Claims(w, p), IsRunning(w.tables, p));
    }
  }

  lemma LessKeepsFenced(w: World, u: Tables)
    requires Fenced(w) && NothingStarts(w.tables, u)
    ensures Fenced(w.(tables := u))
  {
    var v := w.(tables := u);
    forall p ensures StampsOk(Commits(v, p), Claims(v, p), IsRunning(v.tables, p)) {
      assert StampsOk(Commits(w, p), Claims(w, p), IsRunning(w.tables, p));
    }
  }

  lemma StampAdded(stamps: seq<nat>, claims: nat)
    requires StampsOk(stamps, claims, true)
    ensures StampsOk(stamps + [claims], claims, false)
  {
  }

  lemma StampsOfStopped(stamps: seq<nat>, claims: nat, running: bool)
    requires StampsOk(stamps, claims, running)
    ensures StampsOk(stamps, claims, false)
  {
  }

  lemma CommitKeepsFenced(w: World, u: Tables, worker: Id)
    requires Fenced(w) && worker in w.held
    requires var o := w.held[worker].operation; RunningFor(w.tables, o, worker) && !IsRunning(u, o)
    requires NothingStarts(w.tables, u)
    ensures var token := w.held[worker];
            Fenced(w.(tables := u, commits := w.commits[token.operation := Commits(w, token.operation) + [token.stamp]]))
  {
    var token := w.held[worker];
    var v := w.(tables := u, commits := w.commits[token.operation := Commits(w, token.operation) + [token.stamp]]);
    hide StampsOk;
    assert HeldOk(v);
    assert token.stamp == Claims(w, token.operation);
    hide HeldOk, RunningFor;
    forall p ensures StampsOk(Commits(v, p), Claims(v, p), IsRunning(v.tables, p)) {
      assert StampsOk(Commits(w, p), Claims(w, p), IsRunning(w.tables, p));
      if p == token.operation {
        StampAdded(Commits(w, p), Claims(w, p));
      } else {
        StampsOfStopped(Commits(w, p), Claims(w, p), IsRunning(w.tables, p));
      }
    }
  }

  lemma MoveKeepsFenced(w: World, m: Move, now: Time)
    requires Fenced(w) && Possible(w, m, now)
    ensures Fenced(Moved(w, m, now))
  {
    hide Fenced, ClaimNext, ClaimControl, Complete, Apply, StartsOnly, NothingStarts;
    match m
    case Claim(worker, o, lease, freshRun) =>
      ClaimStarts(w.tables, o, worker, lease, freshRun, now);
      if ClaimNext(w.tables, o, worker, lease, freshRun, now).1.Claimed? {
        GrantKeepsFenced(w, ClaimNext(w.tables, o, worker, lease, freshRun, now).0, worker, o);
      }
    case TakeControl(worker, request, lease) =>
      ControlStarts(w.tables, request, worker, lease, now);
      var (u, r) := ClaimControl(w.tables, request, worker, lease, now);
      if r.ControlClaimed? {
        GrantKeepsFenced(w, u, worker, w.tables.requests[request].operation);
      } else {
        LessKeepsFenced(w, u);
      }
    case Finish(worker, outcome, control) =>
      CompleteStops(w.tables, w.held[worker].operation, worker, outcome, control, now);
      var (u, r) := Complete(w.tables, w.held[worker].operation, worker, outcome, control, now);
      if IsCommit(r) {
        CommitKeepsFenced(w, u, worker);
      }
    case Crash(worker) => CrashKeepsFenced(w, worker);
    case Elsewhere(step) =>
      ElsewhereStartsNothing(w.tables, step, now);
      LessKeepsFenced(w, Apply(w.tables, step, now));
  }

  lemma CrashKeepsFenced(w: World, worker: Id)
    requires Fenced(w)
    ensures Fenced(w.(held := w.held - {worker}))
  {
    var v := w.(held := w.held - {worker});
    forall p ensures StampsOk(Commits(v, p), Claims(v, p), IsRunning(v.tables, p)) {
      assert StampsOk(Commits(w, p), Claims(w, p), IsRunning(w.tables, p));
    }
  }

  // ---------------------------------------------------------------- histories

  datatype TimedMove = Then(move: Move, now: Time)

  ghost predicate IsHistory(worlds: seq<World>, moves: seq<TimedMove>) {
    && |worlds| == |moves| + 1
    && worlds[0] == World(EMPTY, map[], map[], map[])
    && forall i :: 0 <= i < |moves| ==>
         Possible(worlds[i], moves[i].move, moves[i].now)
         && worlds[i + 1] == Moved(worlds[i], moves[i].move, moves[i].now)
  }

  lemma {:induction false} HistoryIsFenced(worlds: seq<World>, moves: seq<TimedMove>, i: nat)
    requires IsHistory(worlds, moves) && i < |worlds|
    ensures Fenced(worlds[i])
  {
    hide Moved, Possible;
    if i > 0 {
      HistoryIsFenced(worlds, moves, i - 1);
      hide Fenced;
      MoveKeepsFenced(worlds[i - 1], moves[i - 1].move, moves[i - 1].now);
    }
  }

  /**
   In every history, a completion commits only for the latest claim of its operation, before that
   claim's lease is over; a completion for a superseded claim leaves the whole database as it was.
   */
  lemma OnlyTheLatestClaimCommits(worlds: seq<World>, moves: seq<TimedMove>, i: nat)
    requires IsHistory(worlds, moves) && i < |moves| && moves[i].move.Finish?
    ensures moves[i].move.worker in worlds[i].held
    ensures var w, m, now := worlds[i], moves[i].move, moves[i].now;
            var token := w.held[m.worker];
            var r := Complete(w.tables, token.operation, m.worker, m.outcome, m.control, now).1;
            && (IsCommit(r) ==>
                  && token.stamp == Claims(w, token.operation)
                  && RunningFor(w.tables, token.operation, m.worker)
                  && w.tables.operations[token.operation].leaseExpiresAt.Some?
                  && now <= w.tables.operations[token.operation].leaseExpiresAt.value)
            && (token.stamp < Claims(w, token.operation) ==> worlds[i + 1] == w)
  {
    hide Complete, ClaimNext, ClaimControl, Apply;
    var w, m, now := worlds[i], moves[i].move, moves[i].now;
    HistoryIsFenced(worlds, moves, i);
    assert Possible(w, m, now) && worlds[i + 1] == Moved(w, m, now);
    hide IsHistory;
    CompleteEffect(w.tables, w.held[m.worker].operation, m.worker, m.outcome, m.control, now);
  }

  /** In every history, each claim commits at most once, in the order of the claims. */
  lemma CommitsFollowClaims(worlds: seq<World>, moves: seq<TimedMove>, i: nat, o: Id)
    requires IsHistory(worlds, moves) && i < |worlds|
    ensures var stamps := Commits(worlds[i], o);
            && (forall j, k :: 0 <= j < k < |stamps| ==> stamps[j] < stamps[k])
            && |stamps| + (if IsRunning(worlds[i].tables, o) then 1 else 0) <= Claims(worlds[i], o)
  {
    hide IsHistory;
    HistoryIsFenced(worlds, moves, i);
    var stamps := Commits(worlds[i], o);
    assert StampsOk(stamps, Claims(worlds[i], o), IsRunning(worlds[i].tables, o));
    if stamps != [] {
      StampsCount(stamps, |stamps| - 1);
    }
  }

  lemma {:induction false} StampsCount(stamps: seq<nat>, k: nat)
    requires k < |stamps| && (forall i :: 0 <= i < |stamps| ==> 1 <= stamps[i])
    requires forall i, j :: 0 <= i < j < |stamps| ==> stamps[i] < stamps[j]
    ensures k < stamps[k]
  {
    if k > 0 {
      StampsCount(stamps, k - 1);
      assert stamps[k - 1] < stamps[k];
    }
  }
}
