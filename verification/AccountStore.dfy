/** The identity module and its lifecycle worker as the program runs them: one transaction at a time, row by row. */
module AccountStore {
  import opened Wrappers
  import opened AccountDeletion

  class Store {
    var accounts: map<Id, Account>
    var events: map<Id, Event>

    function Contents(): Db
      reads this
    {
      Db(accounts, events)
    }

    constructor ()
      ensures Contents() == EMPTY
    {
      accounts, events := map[], map[];
    }

    /** Inserts an event; false when its id is taken. */
    method EnqueueEvent(id: Id, account: Id, kind: EventKind, occurredAt: Time, scheduledAt: Time) returns (inserted: bool)
      modifies this`events
      ensures inserted <==> id !in old(events)
      ensures events == if inserted then Enqueued(old(events), id, account, kind, occurredAt, scheduledAt) else old(events)
    {
      if id in events {
        return false;
      }
      events := events[id := Event(account, kind, occurredAt, scheduledAt, 0, None, None, None)];
      return true;
    }

    /** The writes that both kinds of request make, or none of them. */
    method Mark(account: Id, ids: EventIds, now: Time) returns (r: Result<Time, Error>)
      requires account in accounts
      modifies this
      ensures (Contents(), r) == MarkForDeletion(old(Contents()), account, ids, now)
    {
      var begun := (accounts, events);
      var due := now + WAIT;
      accounts := accounts[account := accounts[account].(
        status := PendingDeletion, requestedAt := Some(now), dueAt := Some(due), updatedAt := now)];
      var first := EnqueueEvent(ids.restrict, account, Restrict, now, now);
      var second := EnqueueEvent(ids.delete, account, Delete, now, due);
      if !first || !second {
        accounts, events := begun.0, begun.1;
        return Err(WriteFailed);
      }
      return Ok(due);
    }

    method RequestSelf(session: Option<Id>, passwordOk: bool, ids: EventIds, now: Time) returns (r: Result<Time, Error>)
      modifies this
      ensures (Contents(), r) == RequestSelfDeletion(old(Contents()), session, passwordOk, ids, now)
    {
      if !MayAct(Contents(), session) || accounts[session.value].role != User {
        return Err(Unauthorized);
      }
      if !passwordOk {
        return Err(ReauthenticationFailed);
      }
      r := Mark(session.value, ids, now);
    }

    method RequestOther(session: Option<Id>, passwordOk: bool, target: Id, ids: EventIds, now: Time) returns (r: Result<Time, Error>)
      modifies this
      ensures (Contents(), r) == RequestAccountDeletion(old(Contents()), session, passwordOk, target, ids, now)
    {
      if !MayAct(Contents(), session) || accounts[session.value].role != Superadmin {
        return Err(Unauthorized);
      }
      if !passwordOk {
        return Err(ReauthenticationFailed);
      }
      if target !in accounts || accounts[target].role != User || accounts[target].status != Active {
        return Err(Unauthorized);
      }
      r := Mark(target, ids, now);
    }

    method CancelLiveEvents(account: Id, kinds: set<EventKind>, now: Time)
      modifies this`events
      ensures events == CancelEvents(old(events), account, kinds, now)
    {
      events := map e | e in events ::
        if events[e].account == account && events[e].kind in kinds && Live(events[e])
        then events[e].(cancelledAt := Some(now)) else events[e];
    }

    method CancelSelf(session: Option<Id>, now: Time) returns (r: Result<(), Error>)
      modifies this
      ensures (Contents(), r) == CancelSelfDeletion(old(Contents()), session, now)
    {
      if session.None? || session.value !in accounts || accounts[session.value].status != PendingDeletion {
        return Err(Unauthorized);
      }
      var account := session.value;
      accounts := accounts[account := accounts[account].(status := Active, requestedAt := None, dueAt := None, updatedAt := now)];
      CancelLiveEvents(account, {Delete, Restrict}, now);
      return Ok(());
    }

    method SetStatus(session: Option<Id>, passwordOk: bool, target: Id, enable: bool, event: Id, now: Time) returns (r: Result<(), Error>)
      modifies this
      ensures (Contents(), r) == SetAccountStatus(old(Contents()), session, passwordOk, target, enable, event, now)
    {
      if !MayAct(Contents(), session) || accounts[session.value].role == User {
        return Err(Unauthorized);
      }
      if target !in accounts || accounts[target].status == Deleted || accounts[target].status == PendingDeletion
         || (accounts[session.value].role == Admin && accounts[target].role != User)
      {
        return Err(Unauthorized);
      }
      if accounts[target].role == Superadmin {
        if !passwordOk {
          return Err(ReauthenticationFailed);
        }
        if !enable && OtherSuperadmins(Contents(), target) == {} {
          return Err(LastSuperadmin);
        }
      }
      var begun := accounts;
      accounts := accounts[target := accounts[target].(status := if enable then Active else Disabled, updatedAt := now)];
      if enable {
        CancelLiveEvents(target, {Restrict}, now);
      } else if begun[target].status != Disabled {
        var inserted := EnqueueEvent(event, target, Restrict, now, now);
        if !inserted {
          accounts := begun;
          return Err(WriteFailed);
        }
      }
      return Ok(());
    }

    /** Throws, which is false, when the account is neither pending nor gone. */
    method EraseAccount(account: Id, now: Time) returns (done: bool)
      modifies this`accounts
      ensures done <==> Erase(old(accounts), account, now).Some?
      ensures accounts == if done then Erase(old(accounts), account, now).value else old(accounts)
    {
      if account !in accounts || accounts[account].status == Deleted {
        return true;
      }
      if accounts[account].status != PendingDeletion {
        return false;
      }
      accounts := accounts[account := accounts[account].(
        status := Deleted, permanent := true, requestedAt := None, dueAt := None, updatedAt := now)];
      return true;
    }

    method Work(selected: Option<Id>, handled: bool, now: Time, later: Time) returns (r: Run)
      requires selected.Some? ==> Due(Contents(), selected.value, now)
      modifies this
      ensures (Contents(), r) == RunOnce(old(Contents()), selected, handled, now, later)
    {
      if selected.None? {
        return Idle;
      }
      var id := selected.value;
      var event := events[id];
      if !handled {
        events := events[id := event.(attempts := event.attempts + 1, lastAttemptAt := Some(later))];
        return RetryScheduled;
      }
      if event.kind == Delete {
        var done := EraseAccount(event.account, later);
        if !done {
          return Aborted;
        }
      }
      events := events[id := event.(attempts := event.attempts + 1, lastAttemptAt := Some(later), processedAt := Some(later))];
      return Processed;
    }
  }
}
