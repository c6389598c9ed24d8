/** One round of the worker: claim, execute, complete, and acknowledge or not. */
module TaskWorker {
  import opened Wrappers
  import opened TaskTypes
  import opened TaskTransactions
  import opened TaskInvariants
  import opened TaskSteps
  import opened TaskRuns
  import opened TaskTheorems
  import opened TaskOutbox
  import TaskStore

  /** How a round ended; a round that an exception ends acknowledges nothing. */
  datatype Round = Round(acknowledged: bool, executed: bool)

  /** The tables after a claim, in an orderly database. */
  ghost function AfterClaim(t: Tables, o: Id, worker: Id, lease: int, freshRun: Id, now: Time): Tables
    requires Inv(t)
  {
    ClaimIsEnabled(t, o, worker, lease, freshRun, now);
    ClaimNext(t, o, worker, lease, freshRun, now).0
  }

  /** The outcome ends the work of the message: it may be committed, and is not to be retried. */
  ghost predicate Concludes(t: Tables, o: Id, worker: Id, outcome: Outcome, now: Time) {
    MayCommit(t, o, worker, outcome, None, now) && OutcomeState(outcome) != FailedRetryable
  }

  lemma ClaimIsEnabled(t: Tables, o: Id, worker: Id, lease: int, freshRun: Id, now: Time)
    requires Inv(t)
    ensures Enabled(t, ClaimStep(o, worker, lease, freshRun), now)
  {
    hide Inv;
    if o in t.operations {
      InvAt(t, o);
    }
  }

  /** What the answer of a claim says of the operation, and that only a granted claim changes anything. */
  lemma ClaimAnswers(t: Tables, o: Id, worker: Id, lease: int, freshRun: Id, now: Time)
    requires Enabled(t, ClaimStep(o, worker, lease, freshRun), now)
    ensures var (u, r) := ClaimNext(t, o, worker, lease, freshRun, now);
            && (AckAfterClaim(r) <==> o !in t.operations || Finished(t.operations[o].state))
            && (r.Claimed? <==> o in t.operations && Claimable(t.operations[o], now)
                                && !(t.operations[o].state == FailedRetryable && freshRun in t.runs))
            && (!r.Claimed? ==> u == t)
  {
    hide StartAttempt, AnnounceRunning;
  }

  class Worker {
    const store: TaskStore.Store
    const name: Id
    const lease: int

    constructor (store: TaskStore.Store, name: Id, lease: int)
      ensures this.store == store && this.name == name && this.lease == lease
    {
      this.store, this.name, this.lease := store, name, lease;
    }

    /**
     The first transaction of a round on a message, whose operation is None when its id is not proper.
     The round ends here, without execution, unless the answer is None: then the operation is claimed.
     */
    method ClaimMessage(operation: Option<Id>, freshRun: Id, now: Time) returns (ended: Option<Round>)
      requires Inv(store.tables)
      modifies store
      ensures Inv(store.tables) && Evolves(old(store.tables), store.tables)
      ensures operation.None? ==> ended == Some(Round(true, false))
      ensures ended.Some? ==> store.tables == old(store.tables) && !ended.value.executed
      ensures ended.Some? && operation.Some? ==>
                (ended.value.acknowledged <==>
                   operation.value !in old(store.tables).operations || Finished(old(store.tables).operations[operation.value].state))
      ensures ended.None? <==>
                && operation.Some? && operation.value in old(store.tables).operations
                && Claimable(old(store.tables).operations[operation.value], now)
                && !(old(store.tables).operations[operation.value].state == FailedRetryable && freshRun in old(store.tables).runs)
      ensures ended.None? ==> store.tables == AfterClaim(old(store.tables), operation.value, name, lease, freshRun, now)
    {
      hide Inv, Evolves, ClaimNext;
      AdvancesSelf(store.tables);
      if operation.None? {
        return Some(Round(true, false));
      }
      ghost var before := store.tables;
      ClaimIsEnabled(before, operation.value, name, lease, freshRun, now);
      var claim := store.ClaimNext(operation.value, name, lease, freshRun, now);
      ClaimKeepsInv(before, operation.value, name, lease, freshRun, now);
      ClaimAnswers(before, operation.value, name, lease, freshRun, now);
      if claim.Claimed? {
        return None;
      }
      return Some(Round(AckAfterClaim(claim), false));
    }

    /**
     The last transaction of a round on a message, whatever other workers did since its claim. The
     message is acknowledged exactly when the outcome concludes its work, and then nothing of the
     operation is left to claim; an outcome that may not be committed changes nothing.
     */
    method FinishMessage(operation: Id, outcome: Outcome, now: Time) returns (round: Round)
      requires Inv(store.tables)
      modifies store
      ensures Inv(store.tables) && Evolves(old(store.tables), store.tables) && round.executed
      ensures round.acknowledged <==> Concludes(old(store.tables), operation, name, outcome, now)
      ensures round.acknowledged ==>
                && operation in store.tables.operations && store.tables.operations[operation].state == OutcomeState(outcome)
                && forall later :: !Claimable(store.tables.operations[operation], later)
      ensures !MayCommit(old(store.tables), operation, name, outcome, None, now) ==> store.tables == old(store.tables)
    {
      hide Inv, Evolves, Complete, MayCommit;
      ghost var before := store.tables;
      var completion := store.Complete(operation, name, outcome, None, now);
      CompleteKeepsInv(before, operation, name, outcome, None, now);
      CompletionCommitsIff(before, operation, name, outcome, None, now);
      CommitAnswers(before, operation, name, outcome, now);
      return Round(AckAfterComplete(completion), true);
    }

    /** `runOnce` on a message, undisturbed between its two transactions. */
    method RunOnce(operation: Option<Id>, freshRun: Id, outcome: Outcome, claimedAt: Time, completedAt: Time) returns (round: Round)
      requires Inv(store.tables)
      modifies store
      ensures Inv(store.tables) && Evolves(old(store.tables), store.tables)
      ensures operation.None? ==> round == Round(true, false)
      ensures !round.executed ==> store.tables == old(store.tables)
      ensures operation.Some? && !round.executed ==>
                (round.acknowledged <==>
                   operation.value !in old(store.tables).operations || Finished(old(store.tables).operations[operation.value].state))
      ensures round.executed ==>
                && operation.Some? && operation.value in old(store.tables).operations
                && Claimable(old(store.tables).operations[operation.value], claimedAt)
      ensures round.executed ==>
                (round.acknowledged <==>
                   Concludes(AfterClaim(old(store.tables), operation.value, name, lease, freshRun, claimedAt),
                             operation.value, name, outcome, completedAt))
      ensures operation.Some? && round.acknowledged && operation.value in store.tables.operations ==>
                forall later :: !Claimable(store.tables.operations[operation.value], later)
    {
      hide Inv, Evolves, Concludes, AfterClaim;
      ghost var before := store.tables;
      var ended := ClaimMessage(operation, freshRun, claimedAt);
      if ended.Some? {
        return ended.value;
      }
      ghost var claimed := store.tables;
      round := FinishMessage(operation.value, outcome, completedAt);
      AdvancesTransitive(before, claimed, store.tables);
    }

    /** The first transaction of a round on a runtime control: the claim of the selected request, when there is one. */
    method ClaimControl(selected: Option<Id>, now: Time) returns (claim: ControlClaim)
      requires Inv(store.tables) && (selected.Some? ==> ControlSelectable(store.tables, selected.value, now))
      modifies store
      ensures Inv(store.tables) && Evolves(old(store.tables), store.tables)
      ensures selected.None? ==> claim == ControlEmpty && store.tables == old(store.tables)
      ensures selected.Some? ==>
                (store.tables, claim) == TaskTransactions.ClaimControl(old(store.tables), selected.value, name, lease, now)
      ensures claim.ControlClaimed? ==>
                && selected == Some(claim.request) && claim.request in store.tables.requests
                && Closable(store.tables, claim.request, claim.operation, name)
    {
      hide Inv, Evolves, RequestMatches, RecoveryPermission, ReceiptsOf;
      AdvancesSelf(store.tables);
      if selected.Some? {
        ControlClaimKeepsInv(store.tables, selected.value, name, lease, now);
      }
      claim := store.ClaimNextRuntimeControl(selected, name, lease, now);
    }

    /**
     The last transaction of a round on a runtime control, whatever other workers did since its claim:
     the outcome is committed, and the request closed, exactly when it may be.
     */
    method FinishControl(operation: Id, request: Id, outcome: Outcome, now: Time) returns (committed: bool)
      requires Inv(store.tables)
      modifies store
      ensures Inv(store.tables) && Evolves(old(store.tables), store.tables)
      ensures committed <==> MayCommit(old(store.tables), operation, name, outcome, Some(request), now)
      ensures committed ==>
                && operation in store.tables.operations && store.tables.operations[operation].state == OutcomeState(outcome)
                && !Closable(store.tables, request, operation, name)
      ensures !committed ==> store.tables == old(store.tables)
    {
      hide Inv, Evolves, Complete, MayCommit;
      ghost var before := store.tables;
      var completion := store.Complete(operation, name, outcome, Some(request), now);
      CompleteKeepsInv(before, operation, name, outcome, Some(request), now);
      CompletionCommitsIff(before, operation, name, outcome, Some(request), now);
      CommitClosesRequest(before, operation, name, outcome, request, now);
      return IsCommit(completion);
    }

    lemma CommitClosesRequest(t: Tables, o: Id, worker: Id, outcome: Outcome, request: Id, now: Time)
      ensures var (u, r) := Complete(t, o, worker, outcome, Some(request), now);
              IsCommit(r) ==> !Closable(u, request, o, worker)
    {
      hide Record, Decodes, Completable, OutcomeControlError;
    }
  }
}
