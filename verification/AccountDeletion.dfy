/** Account deletion: requested, cancellable for seven days, and carried out by the lifecycle worker. */
module AccountDeletion {
  import opened Wrappers

  type Id = string
  type Time = int

  const WAIT := 604_800_000

  datatype Role = User | Admin | Superadmin
  datatype Status = Active | Disabled | PendingDeletion | Deleted

  datatype Account = Account(role: Role, status: Status, permanent: bool, requestedAt: Option<Time>, dueAt: Option<Time>, updatedAt: Time)

  datatype EventKind = Restrict | Delete

  datatype Event = Event(
    account: Id, kind: EventKind, occurredAt: Time, scheduledAt: Time,
    attempts: nat, lastAttemptAt: Option<Time>, processedAt: Option<Time>, cancelledAt: Option<Time>)

  datatype Db = Db(accounts: map<Id, Account>, events: map<Id, Event>)

  const EMPTY := Db(map[], map[])

  datatype Error = Unauthorized | ReauthenticationFailed | LastSuperadmin | WriteFailed

  predicate Live(e: Event) {
    e.processedAt.None? && e.cancelledAt.None?
  }

  /** The account of a live session that may act: active, with a permanent password. */
  predicate MayAct(db: Db, session: Option<Id>) {
    && session.Some? && session.value in db.accounts
    && db.accounts[session.value].status == Active && db.accounts[session.value].permanent
  }

  function Enqueued(events: map<Id, Event>, id: Id, account: Id, kind: EventKind, now: Time, scheduledAt: Time): map<Id, Event> {
    events[id := Event(account, kind, now, scheduledAt, 0, None, None, None)]
  }

  datatype EventIds = EventIds(restrict: Id, delete: Id)

  /** The writes of a deletion request; fails when an event id is taken. */
  function MarkForDeletion(db: Db, account: Id, ids: EventIds, now: Time): (Db, Result<Time, Error>)
    requires account in db.accounts
  {
    if ids.restrict in db.events || ids.delete in db.events || ids.restrict == ids.delete then (db, Err(WriteFailed))
    else
      var due := now + WAIT;
      (Db(db.accounts[account := db.accounts[account].(
            status := PendingDeletion, requestedAt := Some(now), dueAt := Some(due), updatedAt := now)],
          Enqueued(Enqueued(db.events, ids.restrict, account, Restrict, now, now), ids.delete, account, Delete, now, due)),
       Ok(due))
  }

  /** `session` is the account of the live session the token belongs to. */
  function RequestSelfDeletion(db: Db, session: Option<Id>, passwordOk: bool, ids: EventIds, now: Time): (Db, Result<Time, Error>) {
    if !MayAct(db, session) || db.accounts[session.value].role != User then (db, Err(Unauthorized))
    else if !passwordOk then (db, Err(ReauthenticationFailed))
    else MarkForDeletion(db, session.value, ids, now)
  }

  function RequestAccountDeletion(db: Db, session: Option<Id>, passwordOk: bool, target: Id, ids: EventIds, now: Time)
    : (Db, Result<Time, Error>)
  {
    if !MayAct(db, session) || db.accounts[session.value].role != Superadmin then (db, Err(Unauthorized))
    else if !passwordOk then (db, Err(ReauthenticationFailed))
    else if target !in db.accounts || db.accounts[target].role != User || db.accounts[target].status != Active then (db, Err(Unauthorized))
    else MarkForDeletion(db, target, ids, now)
  }

  function CancelEvents(events: map<Id, Event>, account: Id, kinds: set<EventKind>, now: Time): map<Id, Event> {
    map e | e in events ::
      if events[e].account == account && events[e].kind in kinds && Live(events[e])
      then events[e].(cancelledAt := Some(now)) else events[e]
  }

  function CancelSelfDeletion(db: Db, session: Option<Id>, now: Time): (Db, Result<(), Error>) {
    if session.None? || session.value !in db.accounts || db.accounts[session.value].status != PendingDeletion then (db, Err(Unauthorized))
    else
      var account := session.value;
      (Db(db.accounts[account := db.accounts[account].(status := Active, requestedAt := None, dueAt := None, updatedAt := now)],
          CancelEvents(db.events, account, {Delete, Restrict}, now)),
       Ok(()))
  }

  /** Active superadmins with a permanent password, other than one. */
  function OtherSuperadmins(db: Db, account: Id): set<Id> {
    set a | a in db.accounts && a != account && db.accounts[a].role == Superadmin
            && db.accounts[a].status == Active && db.accounts[a].permanent
  }

  function SetAccountStatus(db: Db, session: Option<Id>, passwordOk: bool, target: Id, enable: bool, event: Id, now: Time)
    : (Db, Result<(), Error>)
  {
    if !MayAct(db, session) || db.accounts[session.value].role == User then (db, Err(Unauthorized))
    else if target !in db.accounts || db.accounts[target].status == Deleted || db.accounts[target].status == PendingDeletion
         || (db.accounts[session.value].role == Admin && db.accounts[target].role != User) then (db, Err(Unauthorized))
    else if db.accounts[target].role == Superadmin && !passwordOk then (db, Err(ReauthenticationFailed))
    else if db.accounts[target].role == Superadmin && !enable && OtherSuperadmins(db, target) == {} then (db, Err(LastSuperadmin))
    else
      var accounts := db.accounts[target := db.accounts[target].(status := if enable then Active else Disabled, updatedAt := now)];
      if enable then (Db(accounts, CancelEvents(db.events, target, {Restrict}, now)), Ok(()))
      else if db.accounts[target].status == Disabled then (Db(accounts, db.events), Ok(()))
      else if event in db.events then (db, Err(WriteFailed))
      else (Db(accounts, Enqueued(db.events, event, target, Restrict, now, now)), Ok(()))
  }

  // ---------------------------------------------------------------- the worker

  datatype Run = Idle | RetryScheduled | Processed | Aborted

  /** The WHERE clause of the worker's query. */
  predicate Due(db: Db, e: Id, now: Time) {
    e in db.events && Live(db.events[e]) && db.events[e].scheduledAt <= now
  }

  /** None when the erasure throws: the account exists and is neither pending nor deleted. */
  function Erase(accounts: map<Id, Account>, account: Id, now: Time): Option<map<Id, Account>> {
    if account !in accounts || accounts[account].status == Deleted then Some(accounts)
    else if accounts[account].status != PendingDeletion then None
    else Some(accounts[account := accounts[account].(
      status := Deleted, permanent := true, requestedAt := None, dueAt := None, updatedAt := now)])
  }

  /** `selected` is the event the worker's query returned at `now`; `handled` is whether its handler succeeded, at `later`. */
  function RunOnce(db: Db, selected: Option<Id>, handled: bool, now: Time, later: Time): (Db, Run)
    requires selected.Some? ==> Due(db, selected.value, now)
  {
    if selected.None? then (db, Idle)
    else
      var event := db.events[selected.value];
      var attempted := event.(attempts := event.attempts + 1, lastAttemptAt := Some(later));
      if !handled then (db.(events := db.events[selected.value := attempted]), RetryScheduled)
      else
        var erased := if event.kind == Delete then Erase(db.accounts, event.account, later) else Some(db.accounts);
        if erased.None? then (db, Aborted)
        else (Db(erased.value, db.events[selected.value := attempted.(processedAt := Some(later))]), Processed)
  }

  // ---------------------------------------------------------------- steps

  /**
   `SetPassword` stands for every change, recovery, reset and completion of a password: it makes the
   password permanent or temporary.
   */
  datatype Step =
    | Register(account: Id, role: Role, permanent: bool)
    | ChangeRole(account: Id, role: Role)
    | SetPassword(account: Id, permanent: bool)
    | RequestSelf(session: Option<Id>, passwordOk: bool, ids: EventIds)
    | RequestOther(session: Option<Id>, passwordOk: bool, target: Id, ids: EventIds)
    | Cancel(session: Option<Id>)
    | SetStatus(session: Option<Id>, passwordOk: bool, target: Id, enable: bool, event: Id)
    | Work(selected: Option<Id>, handled: bool, later: Time)

  ghost predicate Enabled(db: Db, s: Step, now: Time) {
    match s
    case Register(account, _, _) => account !in db.accounts
    case ChangeRole(account, _) => account in db.accounts && db.accounts[account].status != Deleted
    case SetPassword(account, _) => account in db.accounts && db.accounts[account].status != Deleted
    case Work(selected, _, later) => now <= later && (selected.Some? ==> Due(db, selected.value, now))
    case _ => true
  }

  ghost function Apply(db: Db, s: Step, now: Time): Db
    requires Enabled(db, s, now)
  {
    match s
    case Register(account, role, permanent) =>
      db.(accounts := db.accounts[account := Account(role, Active, permanent, None, None, now)])
    case ChangeRole(account, role) => db.(accounts := db.accounts[account := db.accounts[account].(role := role, updatedAt := now)])
    case SetPassword(account, permanent) =>
      db.(accounts := db.accounts[account := db.accounts[account].(permanent := permanent, updatedAt := now)])
    case RequestSelf(session, passwordOk, ids) => RequestSelfDeletion(db, session, passwordOk, ids, now).0
    case RequestOther(session, passwordOk, target, ids) => RequestAccountDeletion(db, session, passwordOk, target, ids, now).0
    case Cancel(session) => CancelSelfDeletion(db, session, now).0
    case SetStatus(session, passwordOk, target, enable, event) => SetAccountStatus(db, session, passwordOk, target, enable, event, now).0
    case Work(selected, handled, later) => RunOnce(db, selected, handled, now, later).0
  }

  // ---------------------------------------------------------------- the invariant

  /** The one live deletion event of an account. */
  ghost predicate OnlyDelete(db: Db, e: Id, account: Id) {
    && e in db.events && db.events[e].account == account && db.events[e].kind == Delete && Live(db.events[e])
    && forall f :: f in db.events && db.events[f].account == account && db.events[f].kind == Delete && Live(db.events[f]) ==> f == e
  }

  /** No live deletion event. */
  ghost predicate NoDelete(db: Db, account: Id) {
    forall e :: e in db.events && db.events[e].account == account && db.events[e].kind == Delete ==> !Live(db.events[e])
  }

  /** A pending account is due seven days after the request, and has one live deletion event, scheduled then. */
  ghost predicate PendingOk(db: Db, a: Id)
    requires a in db.accounts
  {
    && db.accounts[a].requestedAt.Some? && db.accounts[a].dueAt == Some(db.accounts[a].requestedAt.value + WAIT)
    && exists e :: OnlyDelete(db, e, a) && db.events[e].scheduledAt == db.accounts[a].dueAt.value
  }

  ghost predicate AccountOk(db: Db, a: Id)
    requires a in db.accounts
  {
    if db.accounts[a].status == PendingDeletion then PendingOk(db, a)
    else db.accounts[a].requestedAt.None? && db.accounts[a].dueAt.None? && NoDelete(db, a)
  }

  ghost predicate Inv(db: Db) {
    && (forall a :: a in db.accounts ==> AccountOk(db, a))
    && (forall e :: e in db.events ==> db.events[e].account in db.accounts)
  }

  /** The live deletion events of an account are what they were. */
  ghost predicate SameDeletes(t: Db, u: Db, a: Id) {
    forall e ::
      (e in t.events && t.events[e].account == a && t.events[e].kind == Delete && Live(t.events[e]))
      <==> (e in u.events && u.events[e].account == a && u.events[e].kind == Delete && Live(u.events[e]))
  }

  ghost predicate SameSchedule(t: Db, u: Db) {
    forall e :: e in t.events && e in u.events ==> u.events[e].scheduledAt == t.events[e].scheduledAt
  }

  /** An account whose deletion columns and live deletion events are untouched. */
  lemma UntouchedOk(t: Db, u: Db, a: Id)
    requires a in t.accounts && a in u.accounts && AccountOk(t, a) && SameDeletes(t, u, a) && SameSchedule(t, u)
    requires u.accounts[a].requestedAt == t.accounts[a].requestedAt && u.accounts[a].dueAt == t.accounts[a].dueAt
    requires u.accounts[a].status == PendingDeletion <==> t.accounts[a].status == PendingDeletion
    ensures AccountOk(u, a)
  {
    if t.accounts[a].status == PendingDeletion {
      var e :| OnlyDelete(t, e, a) && t.events[e].scheduledAt == t.accounts[a].dueAt.value;
      assert OnlyDelete(u, e, a);
    }
  }

  lemma MarkApart(db: Db, account: Id, ids: EventIds, now: Time)
    requires account in db.accounts
    ensures var u := MarkForDeletion(db, account, ids, now).0;
            SameSchedule(db, u) && forall a :: a != account ==> SameDeletes(db, u, a)
  {
  }

  lemma MarkedIsOk(db: Db, account: Id, ids: EventIds, now: Time)
    requires account in db.accounts && AccountOk(db, account) && db.accounts[account].status == Active
    ensures AccountOk(MarkForDeletion(db, account, ids, now).0, account)
  {
    var (u, r) := MarkForDeletion(db, account, ids, now);
    if r.Ok? {
      assert OnlyDelete(u, ids.delete, account);
    }
  }

  lemma MarkKeepsInv(db: Db, account: Id, ids: EventIds, now: Time)
    requires Inv(db) && account in db.accounts && db.accounts[account].status == Active
    ensures Inv(MarkForDeletion(db, account, ids, now).0)
  {
    hide AccountOk, SameSchedule, SameDeletes;
    var u := MarkForDeletion(db, account, ids, now).0;
    MarkApart(db, account, ids, now);
    MarkedIsOk(db, account, ids, now);
    forall a | a in u.accounts ensures AccountOk(u, a) {
      if a != account {
        UntouchedOk(db, u, a);
      }
    }
  }

  lemma CancelKeepsInv(db: Db, session: Option<Id>, now: Time)
    requires Inv(db)
    ensures Inv(CancelSelfDeletion(db, session, now).0)
  {
    var (u, r) := CancelSelfDeletion(db, session, now);
    if r.Ok? {
      forall a | a in u.accounts && a != session.value ensures AccountOk(u, a) {
        UntouchedOk(db, u, a);
      }
    }
  }

  /** Restriction events may come and go; they are not deletions. */
  lemma RestrictEventsApart(t: Db, u: Db, target: Id, event: Id, now: Time)
    requires u.events == t.events || u.events == CancelEvents(t.events, target, {Restrict}, now)
             || (event !in t.events && u.events == Enqueued(t.events, event, target, Restrict, now, now))
    ensures SameSchedule(t, u) && forall a :: SameDeletes(t, u, a)
  {
  }

  /** A target that is neither pending nor deleted gets another such status, and no deletion event changes. */
  lemma StatusKeepsInv(t: Db, u: Db, target: Id)
    requires Inv(t) && target in t.accounts && target in u.accounts && u.accounts == t.accounts[target := u.accounts[target]]
    requires t.accounts[target].status != PendingDeletion && u.accounts[target].status != PendingDeletion
    requires u.accounts[target].requestedAt == t.accounts[target].requestedAt && u.accounts[target].dueAt == t.accounts[target].dueAt
    requires SameSchedule(t, u) && forall a :: SameDeletes(t, u, a)
    requires forall e :: e in u.events ==> u.events[e].account in u.accounts
    ensures Inv(u)
  {
    hide SameSchedule, SameDeletes, AccountOk;
    forall a | a in u.accounts ensures AccountOk(u, a) {
      UntouchedOk(t, u, a);
    }
  }

  lemma SetStatusKeepsInv(db: Db, s: Step, now: Time)
    requires Inv(db) && s.SetStatus? && Enabled(db, s, now)
    ensures Inv(Apply(db, s, now))
  {
    hide OtherSuperadmins, MayAct, AccountOk, SameDeletes, SameSchedule;
    var u := Apply(db, s, now);
    if u != db {
      RestrictEventsApart(db, u, s.target, s.event, now);
      StatusKeepsInv(db, u, s.target);
    }
  }

  /** What becomes of the deletion events of other accounts, and of the account itself. */
  lemma DeletionApart(db: Db, e: Id, now: Time, later: Time)
    requires Due(db, e, now) && db.events[e].kind == Delete && db.events[e].account in db.accounts
    requires AccountOk(db, db.events[e].account)
    ensures var (u, account) := (RunOnce(db, Some(e), true, now, later).0, db.events[e].account);
            && account in u.accounts && AccountOk(u, account)
            && SameSchedule(db, u) && forall a :: a != account ==> SameDeletes(db, u, a)
  {
  }

  /** A handled deletion event erases its account, and is the last of its live deletion events. */
  lemma DeletionKeepsInv(db: Db, e: Id, now: Time, later: Time)
    requires Inv(db) && Due(db, e, now) && db.events[e].kind == Delete
    ensures Inv(RunOnce(db, Some(e), true, now, later).0)
  {
    hide AccountOk, SameSchedule, SameDeletes;
    var u := RunOnce(db, Some(e), true, now, later).0;
    DeletionApart(db, e, now, later);
    forall a | a in u.accounts ensures AccountOk(u, a) {
      if a != db.events[e].account {
        UntouchedOk(db, u, a);
      }
    }
  }

  /** An event that keeps its account, kind and schedule, and its life when it is a deletion. */
  lemma EventRewritten(t: Db, u: Db, e: Id)
    requires e in t.events && e in u.events && u.events == t.events[e := u.events[e]]
    requires u.events[e].account == t.events[e].account && u.events[e].kind == t.events[e].kind
    requires u.events[e].scheduledAt == t.events[e].scheduledAt
    requires t.events[e].kind == Delete ==> (Live(u.events[e]) <==> Live(t.events[e]))
    ensures SameSchedule(t, u) && forall a :: SameDeletes(t, u, a)
  {
  }

  /** A run that erases nothing changes no live deletion event. */
  lemma AttemptKeepsInv(db: Db, e: Id, handled: bool, now: Time, later: Time)
    requires Inv(db) && Due(db, e, now) && (db.events[e].kind == Restrict || !handled)
    ensures Inv(RunOnce(db, Some(e), handled, now, later).0)
  {
    hide SameDeletes, SameSchedule, AccountOk;
    var u := RunOnce(db, Some(e), handled, now, later).0;
    EventRewritten(db, u, e);
    forall a | a in u.accounts ensures AccountOk(u, a) {
      UntouchedOk(db, u, a);
    }
  }

  lemma WorkKeepsInv(db: Db, selected: Option<Id>, handled: bool, now: Time, later: Time)
    requires Inv(db) && (selected.Some? ==> Due(db, selected.value, now))
    ensures Inv(RunOnce(db, selected, handled, now, later).0)
  {
    if selected.Some? {
      hide Inv, RunOnce;
      if handled && db.events[selected.value].kind == Delete {
        DeletionKeepsInv(db, selected.value, now, later);
      } else {
        AttemptKeepsInv(db, selected.value, handled, now, later);
      }
    }
  }

  lemma StepKeepsInv(db: Db, s: Step, now: Time)
    requires Inv(db) && Enabled(db, s, now)
    ensures Inv(Apply(db, s, now))
  {
    match s
    case Register(account, _, _) => RegisterKeepsInv(db, s, now);
    case ChangeRole(_, _) => ColumnsKeepInv(db, s, now);
    case SetPassword(_, _) => ColumnsKeepInv(db, s, now);
    case RequestSelf(session, passwordOk, ids) =>
      if MayAct(db, session) {
        MarkKeepsInv(db, session.value, ids, now);
      }
    case RequestOther(_, _, target, ids) =>
      if target in db.accounts && db.accounts[target].status == Active {
        MarkKeepsInv(db, target, ids, now);
      }
    case Cancel(session) => CancelKeepsInv(db, session, now);
    case SetStatus(_, _, _, _, _) => SetStatusKeepsInv(db, s, now);
    case Work(selected, handled, later) => WorkKeepsInv(db, selected, handled, now, later);
  }

  lemma RegisterKeepsInv(db: Db, s: Step, now: Time)
    requires Inv(db) && Enabled(db, s, now) && s.Register?
    ensures Inv(Apply(db, s, now))
  {
    var u := Apply(db, s, now);
    forall a | a in u.accounts ensures AccountOk(u, a) {
      if a != s.account {
        UntouchedOk(db, u, a);
      }
    }
  }

  /** Columns that the deletion does not use. */
  lemma ColumnsKeepInv(db: Db, s: Step, now: Time)
    requires Inv(db) && Enabled(db, s, now) && (s.ChangeRole? || s.SetPassword?)
    ensures Inv(Apply(db, s, now))
  {
    var u := Apply(db, s, now);
    forall a | a in u.accounts ensures AccountOk(u, a) {
      UntouchedOk(db, u, a);
    }
  }

  // ---------------------------------------------------------------- runs

  datatype TimedStep = At(step: Step, now: Time)

  ghost predicate IsRun(dbs: seq<Db>, steps: seq<TimedStep>) {
    && |dbs| == |steps| + 1 && dbs[0] == EMPTY
    && forall i :: 0 <= i < |steps| ==>
         Enabled(dbs[i], steps[i].step, steps[i].now) && dbs[i + 1] == Apply(dbs[i], steps[i].step, steps[i].now)
  }

  lemma {:induction false} RunKeepsInv(dbs: seq<Db>, steps: seq<TimedStep>, i: nat)
    requires IsRun(dbs, steps) && i < |dbs|
    ensures Inv(dbs[i])
  {
    hide Apply, Enabled;
    if i > 0 {
      RunKeepsInv(dbs, steps, i - 1);
      hide Inv;
      StepKeepsInv(dbs[i - 1], steps[i - 1].step, steps[i - 1].now);
    }
  }

  ghost predicate Pending(db: Db, a: Id) {
    a in db.accounts && db.accounts[a].status == PendingDeletion
  }

  /** In every state an account is pending exactly when it has one live deletion event, due seven days after the request. */
  lemma PendingIffOneLiveDelete(dbs: seq<Db>, steps: seq<TimedStep>, i: nat, a: Id)
    requires IsRun(dbs, steps) && i < |dbs|
    ensures Pending(dbs[i], a) <==> exists e :: OnlyDelete(dbs[i], e, a)
    ensures Pending(dbs[i], a) ==> PendingOk(dbs[i], a)
    ensures !Pending(dbs[i], a) <==> NoDelete(dbs[i], a)
  {
    hide IsRun;
    RunKeepsInv(dbs, steps, i);
    if a in dbs[i].accounts {
      assert AccountOk(dbs[i], a);
    }
  }

  /** The erasure of a due event never finds an account that is not pending, so the worker never aborts. */
  lemma WorkerNeverAborts(dbs: seq<Db>, steps: seq<TimedStep>, i: nat, selected: Option<Id>, handled: bool, now: Time, later: Time)
    requires IsRun(dbs, steps) && i < |dbs| && (selected.Some? ==> Due(dbs[i], selected.value, now))
    ensures RunOnce(dbs[i], selected, handled, now, later).1 != Aborted
  {
    hide IsRun;
    RunKeepsInv(dbs, steps, i);
    if selected.Some? {
      assert AccountOk(dbs[i], dbs[i].events[selected.value].account);
    }
  }

  /** `b` is an active account of the role, with a permanent password. */
  ghost predicate ActiveAs(t: Db, b: Id, role: Role) {
    b in t.accounts && t.accounts[b].role == role && t.accounts[b].status == Active && t.accounts[b].permanent
  }

  /** The account's own user, or a superadmin for the account of a user, asks for its deletion with the right password. */
  ghost predicate AsksFor(t: Db, s: Step, a: Id) {
    match s
    case RequestSelf(session, passwordOk, _) => passwordOk && session == Some(a) && ActiveAs(t, a, User)
    case RequestOther(session, passwordOk, target, _) =>
      && passwordOk && session.Some? && ActiveAs(t, session.value, Superadmin)
      && target == a && a in t.accounts && t.accounts[a].role == User && t.accounts[a].status == Active
    case _ => false
  }

  ghost predicate FreshIds(t: Db, ids: EventIds) {
    ids.restrict !in t.events && ids.delete !in t.events && ids.restrict != ids.delete
  }

  /** The step asks for the deletion of the account and is granted. */
  ghost predicate Requests(t: Db, s: TimedStep, u: Db, a: Id) {
    AsksFor(t, s.step, a) && Pending(u, a) && u.accounts[a].requestedAt == Some(s.now)
  }

  /** How one step may make an account pending, or keep it so. */
  lemma BecomesPending(t: Db, s: TimedStep, a: Id)
    requires Enabled(t, s.step, s.now) && Pending(Apply(t, s.step, s.now), a)
    ensures var u := Apply(t, s.step, s.now);
            Requests(t, s, u, a) || (Pending(t, a) && u.accounts[a].requestedAt == t.accounts[a].requestedAt)
  {
    hide CancelEvents, Enqueued, OtherSuperadmins;
  }

  /** Since its request, a pending account has been pending without a break. */
  lemma {:induction false} PendingSinceRequest(dbs: seq<Db>, steps: seq<TimedStep>, i: nat, a: Id) returns (k: nat)
    requires IsRun(dbs, steps) && i < |dbs| && Pending(dbs[i], a)
    ensures k < i && Requests(dbs[k], steps[k], dbs[k + 1], a)
    ensures dbs[i].accounts[a].requestedAt == Some(steps[k].now)
    ensures forall m :: k < m <= i ==> Pending(dbs[m], a) && dbs[m].accounts[a].requestedAt == Some(steps[k].now)
  {
    hide Apply, Enabled;
    if i == 0 {
      assert false;
    } else {
      BecomesPending(dbs[i - 1], steps[i - 1], a);
      if Requests(dbs[i - 1], steps[i - 1], dbs[i], a) {
        k := i - 1;
      } else {
        k := PendingSinceRequest(dbs, steps, i - 1, a);
      }
    }
  }

  /** The step that erases an account works on its due deletion event. */
  lemma ErasedByWorker(t: Db, s: TimedStep, a: Id)
    requires Inv(t) && Enabled(t, s.step, s.now)
    requires a in t.accounts && t.accounts[a].status != Deleted
    requires a in Apply(t, s.step, s.now).accounts && Apply(t, s.step, s.now).accounts[a].status == Deleted
    ensures s.step.Work? && Pending(t, a)
    ensures t.accounts[a].requestedAt.Some? && t.accounts[a].requestedAt.value + WAIT <= s.now <= s.step.later
  {
    hide CancelEvents, Enqueued, OtherSuperadmins;
    assert AccountOk(t, a);
  }

  /**
   In every run, an account is erased only after it has been pending, without a break, for at least
   seven days since its deletion was requested.
   */
  lemma ErasedOnlyAfterWait(dbs: seq<Db>, steps: seq<TimedStep>, i: nat, a: Id) returns (k: nat)
    requires IsRun(dbs, steps) && i < |steps|
    requires a in dbs[i].accounts && dbs[i].accounts[a].status != Deleted
    requires a in dbs[i + 1].accounts && dbs[i + 1].accounts[a].status == Deleted
    ensures k < i && Requests(dbs[k], steps[k], dbs[k + 1], a)
    ensures steps[i].now - steps[k].now >= 7 * 24 * 60 * 60 * 1000
    ensures forall m :: k < m <= i ==> Pending(dbs[m], a)
  {
    RunKeepsInv(dbs, steps, i);
    hide Apply, Enabled, Inv;
    ErasedByWorker(dbs[i], steps[i], a);
    k := PendingSinceRequest(dbs, steps, i, a);
  }

  /** A cancelled request leaves nothing that could erase the account, until it is requested again. */
  lemma CancelKillsTheEvent(dbs: seq<Db>, steps: seq<TimedStep>, i: nat, session: Option<Id>, now: Time)
    requires IsRun(dbs, steps) && i < |dbs| && CancelSelfDeletion(dbs[i], session, now).1.Ok?
    ensures NoDelete(CancelSelfDeletion(dbs[i], session, now).0, session.value)
  {
    RunKeepsInv(dbs, steps, i);
    hide IsRun;
    CancelKeepsInv(dbs[i], session, now);
    var u := CancelSelfDeletion(dbs[i], session, now).0;
    assert AccountOk(u, session.value);
  }

  // ---------------------------------------------------------------- what each operation does

  /** A deletion is granted exactly to those who may ask for it; the restriction is due at once, the erasure in seven days. */
  lemma RequestGrantedIff(t: Db, s: Step, a: Id, now: Time)
    requires s.RequestSelf? || s.RequestOther?
    ensures var u := Apply(t, s, now);
            && (AsksFor(t, s, a) && FreshIds(t, s.ids) <==> !Pending(t, a) && Pending(u, a))
            && (AsksFor(t, s, a) && FreshIds(t, s.ids) ==>
                  && u.accounts == t.accounts[a := t.accounts[a].(
                       status := PendingDeletion, requestedAt := Some(now), dueAt := Some(now + 604_800_000), updatedAt := now)]
                  && u.events == t.events[s.ids.restrict := Event(a, Restrict, now, now, 0, None, None, None)]
                       [s.ids.delete := Event(a, Delete, now, now + 604_800_000, 0, None, None, None)])
            && ((forall b :: !AsksFor(t, s, b)) || !FreshIds(t, s.ids) ==> u == t)
  {
    var asked := if s.RequestOther? then s.target else if s.session.Some? then s.session.value else a;
    assert Apply(t, s, now) != t ==> AsksFor(t, s, asked) && FreshIds(t, s.ids);
  }

  /** The database of a granted cancellation. */
  ghost predicate IsRestored(t: Db, u: Db, a: Id, now: Time) {
    && u.accounts.Keys == t.accounts.Keys && u.events.Keys == t.events.Keys
    && a in u.accounts && u.accounts[a].status == Active
    && (forall b :: b in t.accounts && b != a ==> u.accounts[b] == t.accounts[b])
    && forall e :: e in t.events ==>
         u.events[e] == if t.events[e].account == a && Live(t.events[e]) then t.events[e].(cancelledAt := Some(now)) else t.events[e]
  }

  /**
   A cancellation is granted exactly to the user of a pending account; it makes the account active
   again and leaves none of its events to be handled, nor touches any other account.
   */
  lemma CancelGrantedIff(t: Db, session: Option<Id>, now: Time)
    ensures var (u, r) := CancelSelfDeletion(t, session, now);
            && (r.Ok? <==> session.Some? && Pending(t, session.value))
            && (if r.Ok? then IsRestored(t, u, session.value, now) else u == t)
  {
    forall e | e in t.events ensures t.events[e].kind in {Delete, Restrict} {
      assert t.events[e].kind.Delete? || t.events[e].kind.Restrict?;
    }
  }

  /** The database after the worker has erased the account of its event. */
  ghost predicate IsErased(t: Db, u: Db, e: Id, at: Time)
    requires e in t.events
  {
    var a := t.events[e].account;
    && u.accounts.Keys == t.accounts.Keys && u.events.Keys == t.events.Keys
    && a in t.accounts && u.accounts[a] == Account(t.accounts[a].role, Deleted, true, None, None, at)
    && (forall b :: b in t.accounts && b != a ==> u.accounts[b] == t.accounts[b])
    && (forall f :: f in t.events && f != e ==> u.events[f] == t.events[f])
  }

  /** In every run a pending account has one deletion event to be handled, and the worker may select it exactly from seven days after the request on. */
  lemma PendingComesDue(dbs: seq<Db>, steps: seq<TimedStep>, i: nat, a: Id) returns (e: Id)
    requires IsRun(dbs, steps) && i < |dbs| && Pending(dbs[i], a)
    ensures OnlyDelete(dbs[i], e, a) && dbs[i].accounts[a].requestedAt.Some?
    ensures forall x: Time :: Due(dbs[i], e, x) <==> dbs[i].accounts[a].requestedAt.value + 7 * 24 * 60 * 60 * 1000 <= x
  {
    hide IsRun;
    RunKeepsInv(dbs, steps, i);
    assert AccountOk(dbs[i], a);
    e :| OnlyDelete(dbs[i], e, a) && dbs[i].events[e].scheduledAt == dbs[i].accounts[a].dueAt.value;
  }

  /**
   In every run, a due event that is handled is never selected again, and erases its account exactly
   when it is a deletion; one that is not handled stays to be selected.
   */
  lemma WorkerHandlesIff(dbs: seq<Db>, steps: seq<TimedStep>, i: nat, e: Id, handled: bool, now: Time, later: Time)
    requires IsRun(dbs, steps) && i < |dbs| && Due(dbs[i], e, now)
    ensures var (t, (u, run)) := (dbs[i], RunOnce(dbs[i], Some(e), handled, now, later));
            && (run == Processed <==> handled) && (run == RetryScheduled <==> !handled)
            && (forall x: Time :: now <= x ==> (Due(u, e, x) <==> !handled))
            && e in u.events && u.events[e] == t.events[e].(
                 attempts := t.events[e].attempts + 1, lastAttemptAt := Some(later), processedAt := if handled then Some(later) else None)
            && (if handled && t.events[e].kind == Delete then Pending(t, t.events[e].account) && IsErased(t, u, e, later)
                else u.accounts == t.accounts && forall f :: f in t.events && f != e ==> f in u.events && u.events[f] == t.events[f])
  {
    hide IsRun;
    RunKeepsInv(dbs, steps, i);
    assert AccountOk(dbs[i], dbs[i].events[e].account);
  }

  ghost predicate HasSuperadmin(t: Db) {
    exists b :: ActiveAs(t, b, Superadmin)
  }

  /** Changing the status of accounts, deleting and restoring them never takes the last superadmin. */
  lemma SuperadminStays(t: Db, s: Step, now: Time)
    requires Enabled(t, s, now) && !s.ChangeRole? && !s.SetPassword? && HasSuperadmin(t)
    ensures HasSuperadmin(Apply(t, s, now))
  {
    hide CancelEvents, Enqueued;
    var u := Apply(t, s, now);
    var b :| ActiveAs(t, b, Superadmin);
    if !ActiveAs(u, b, Superadmin) {
      assert s.SetStatus? && s.target == b && OtherSuperadmins(t, b) != {};
      var c :| c in OtherSuperadmins(t, b);
      assert ActiveAs(u, c, Superadmin);
    }
  }

  /** Who may enable or disable an account: any administrator that of a user, superadmins every one but the last of their own. */
  ghost predicate MayChange(t: Db, s: Step)
    requires s.SetStatus?
  {
    && s.session.Some? && s.target in t.accounts
    && t.accounts[s.target].status in {Active, Disabled}
    && (ActiveAs(t, s.session.value, Superadmin) || (ActiveAs(t, s.session.value, Admin) && t.accounts[s.target].role == User))
    && (t.accounts[s.target].role == Superadmin ==>
          s.passwordOk && (s.enable || exists b :: b != s.target && ActiveAs(t, b, Superadmin)))
  }

  /** An account is enabled or disabled exactly by those who may; only an account newly disabled gets a restriction. */
  lemma StatusChangedIff(t: Db, s: Step, now: Time)
    requires s.SetStatus?
    ensures var (u, r) := SetAccountStatus(t, s.session, s.passwordOk, s.target, s.enable, s.event, now);
            var restricts := !s.enable && s.target in t.accounts && t.accounts[s.target].status == Active;
            && (r.Ok? <==> MayChange(t, s) && (restricts ==> s.event !in t.events))
            && (r.Err? ==> u == t)
            && (r.Ok? ==>
                  && u.accounts == t.accounts[s.target := t.accounts[s.target].(
                       status := if s.enable then Active else Disabled, updatedAt := now)]
                  && (if restricts then u.events == t.events[s.event := Event(s.target, Restrict, now, now, 0, None, None, None)]
                      else u.events.Keys == t.events.Keys && forall e :: e in t.events ==>
                        var undone := s.enable && t.events[e].account == s.target && t.events[e].kind == Restrict;
                        u.events[e] == if undone && Live(t.events[e]) then t.events[e].(cancelledAt := Some(now)) else t.events[e]))
  {
    var others := OtherSuperadmins(t, s.target);
    if others != {} {
      var b :| b in others;
      assert b != s.target && ActiveAs(t, b, Superadmin);
    }
    assert forall b :: b != s.target && ActiveAs(t, b, Superadmin) ==> b in others;
  }
}
