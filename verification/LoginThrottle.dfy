/** The throttle on password checks: five failures, and from then on one check every thirty seconds. */
module LoginThrottle {
  import opened Wrappers

  type Name = string
  type Time = int

  const LOCK := 30_000
  const FAILURES := 5

  datatype Row = Row(failed: nat, lockedUntil: Option<Time>)

  type Rows = map<Name, Row>

  datatype Answer = Throttled(retryAt: Time) | InvalidCredentials | LoggedIn

  function Failed(rows: Rows, name: Name): nat {
    if name in rows then rows[name].failed else 0
  }

  predicate Locked(rows: Rows, name: Name, now: Time) {
    name in rows && rows[name].lockedUntil.Some? && rows[name].lockedUntil.value > now
  }

  /** `accepted`: the account may log in and the password is its password. */
  function LoginEffect(rows: Rows, name: Name, accepted: bool, now: Time): (Rows, Answer) {
    if Locked(rows, name, now) then (rows, Throttled(rows[name].lockedUntil.value))
    else if accepted then (rows - {name}, LoggedIn)
    else
      var failed := Failed(rows, name) + 1;
      if failed >= FAILURES then (rows[name := Row(failed, Some(now + LOCK))], Throttled(now + LOCK))
      else (rows[name := Row(failed, None)], InvalidCredentials)
  }

  class Store {
    var throttles: Rows

    constructor ()
      ensures throttles == map[]
    {
      throttles := map[];
    }

    method Login(name: Name, accepted: bool, now: Time) returns (answer: Answer)
      modifies this
      ensures (throttles, answer) == LoginEffect(old(throttles), name, accepted, now)
    {
      var failedCount := 0;
      if name in throttles {
        var row := throttles[name];
        if row.lockedUntil.Some? && row.lockedUntil.value > now {
          return Throttled(row.lockedUntil.value);
        }
        failedCount := row.failed;
      }
      if !accepted {
        failedCount := failedCount + 1;
        var lockedUntil := if failedCount >= FAILURES then Some(now + LOCK) else None;
        throttles := throttles[name := Row(failedCount, lockedUntil)];
        return if lockedUntil.None? then InvalidCredentials else Throttled(lockedUntil.value);
      }
      throttles := throttles - {name};
      return LoggedIn;
    }
  }

  // ---------------------------------------------------------------- runs

  /** Login attempts under any names, and erasures of accounts. */
  datatype Step = Attempt(name: Name, accepted: bool, now: Time) | Erase(name: Name, now: Time)

  function Apply(rows: Rows, s: Step): Rows {
    match s
    case Attempt(name, accepted, now) => LoginEffect(rows, name, accepted, now).0
    case Erase(name, _) => rows - {name}
  }

  /** The step checks a password for `name`. */
  predicate Checks(rows: Rows, s: Step, name: Name) {
    s.Attempt? && s.name == name && !Locked(rows, name, s.now)
  }

  /** The steps leave the row of `name` to its failures: no success, no erasure. */
  ghost predicate OnlyFailures(steps: seq<Step>, name: Name) {
    forall i :: 0 <= i < |steps| && steps[i].name == name ==> steps[i].Attempt? && !steps[i].accepted
  }

  ghost predicate InOrder(steps: seq<Step>) {
    forall i, j :: 0 <= i < j < |steps| ==> steps[i].now <= steps[j].now
  }

  function After(rows: Rows, steps: seq<Step>): Rows {
    if steps == [] then rows else Apply(After(rows, steps[..|steps| - 1]), steps[|steps| - 1])
  }

  /** The number of password checks for `name`. */
  function Count(rows: Rows, steps: seq<Step>, name: Name): nat {
    if steps == [] then 0
    else
      var before := steps[..|steps| - 1];
      Count(rows, before, name) + if Checks(After(rows, before), steps[|steps| - 1], name) then 1 else 0
  }

  /** After n checks that failed, the next one is at least (n - 4) lock times after the start. */
  ghost predicate Spaced(rows: Rows, name: Name, n: nat, start: Time) {
    && n <= Failed(rows, name)
    && (n >= FAILURES ==>
          name in rows && rows[name].lockedUntil.Some? && rows[name].lockedUntil.value >= start + (n - 4) * LOCK)
  }

  lemma {:induction false} ChecksAreSpaced(rows: Rows, steps: seq<Step>, name: Name, start: Time)
    requires InOrder(steps) && OnlyFailures(steps, name) && (steps != [] ==> start <= steps[0].now)
    ensures Spaced(After(rows, steps), name, Count(rows, steps, name), start)
    ensures steps != [] && Count(rows, steps, name) > FAILURES ==>
              (Count(rows, steps, name) - FAILURES) * LOCK <= steps[|steps| - 1].now - start
  {
    if steps != [] {
      var (before, last) := (steps[..|steps| - 1], steps[|steps| - 1]);
      ChecksAreSpaced(rows, before, name, start);
      assert start <= last.now;
      assert before != [] ==> before[|before| - 1].now <= last.now;
    }
  }

  /** However the attempts are spread, those of one name in T milliseconds check at most 5 + T / 30000 passwords. */
  lemma ChecksAreBounded(rows: Rows, steps: seq<Step>, name: Name)
    requires steps != [] && InOrder(steps) && OnlyFailures(steps, name)
    ensures Count(rows, steps, name) <= FAILURES + (steps[|steps| - 1].now - steps[0].now) / LOCK
  {
    ChecksAreSpaced(rows, steps, name, steps[0].now);
    var (n, span) := (Count(rows, steps, name), steps[|steps| - 1].now - steps[0].now);
    if n > FAILURES {
      assert (n - FAILURES) * LOCK / LOCK == n - FAILURES;
    }
  }

  /** Five attempts at once, and one more at the end of each of n locks. */
  function Fastest(name: Name, n: nat): seq<Step> {
    if n == 0 then seq(5, _ => Attempt(name, false, 0)) else Fastest(name, n - 1) + [Attempt(name, false, n * LOCK)]
  }

  /** The bound is reached: there are attempts that check 5 + T / 30000 passwords for every multiple T of the lock time. */
  lemma {:induction false} BoundIsReached(name: Name, n: nat)
    ensures var steps := Fastest(name, n);
            && steps != [] && steps[0].now == 0 && steps[|steps| - 1].now == n * LOCK
            && Count(map[], steps, name) == FAILURES + n
            && After(map[], steps) == map[name := Row(FAILURES + n, Some(n * LOCK + LOCK))]
  {
    var steps := Fastest(name, n);
    if n == 0 {
      FirstFailures(name, FAILURES);
    } else {
      hide Count, After;
      BoundIsReached(name, n - 1);
      FailureStep(map[], Fastest(name, n - 1), name, n * LOCK);
      assert map[name := Row(FAILURES + n - 1, Some(n * LOCK))][name := Row(FAILURES + n, Some(n * LOCK + LOCK))]
             == map[name := Row(FAILURES + n, Some(n * LOCK + LOCK))];
    }
  }

  lemma {:induction false} FirstFailures(name: Name, k: nat)
    requires k <= FAILURES
    ensures var steps := seq(k, _ => Attempt(name, false, 0));
            && Count(map[], steps, name) == k
            && After(map[], steps) == if k == 0 then map[] else map[name := Row(k, if k == FAILURES then Some(LOCK) else None)]
  {
    if k > 0 {
      FirstFailures(name, k - 1);
      hide Count, After;
      var before := seq(k - 1, _ => Attempt(name, false, 0));
      FailureStep(map[], before, name, 0);
      assert seq(k, _ => Attempt(name, false, 0)) == before + [Attempt(name, false, 0)];
    }
  }

  lemma OneMore(rows: Rows, steps: seq<Step>, s: Step, name: Name)
    ensures After(rows, steps + [s]) == Apply(After(rows, steps), s)
    ensures Count(rows, steps + [s], name) == Count(rows, steps, name) + if Checks(After(rows, steps), s, name) then 1 else 0
  {
    assert (steps + [s])[..|steps|] == steps;
  }

  /** One more failing attempt that is not locked out. */
  lemma FailureStep(rows: Rows, steps: seq<Step>, name: Name, now: Time)
    requires !Locked(After(rows, steps), name, now)
    ensures var (more, t) := (steps + [Attempt(name, false, now)], After(rows, steps));
            && Count(rows, more, name) == Count(rows, steps, name) + 1
            && After(rows, more) == t[name := Row(Failed(t, name) + 1, if Failed(t, name) + 1 >= FAILURES then Some(now + LOCK) else None)]
  {
    hide After, Count;
    OneMore(rows, steps, Attempt(name, false, now), name);
  }

  // ---------------------------------------------------------------- what a history of attempts means for the next

  /** Step `i` checked a password for `name`, and it was wrong. */
  ghost predicate Fails(steps: seq<Step>, i: nat, name: Name)
    requires i < |steps|
  {
    Checks(After(map[], steps[..i]), steps[i], name) && !steps[i].accepted
  }

  /** Step `i` forgets the failures of `name`: a login, or the erasure of the account. */
  ghost predicate Clears(steps: seq<Step>, i: nat, name: Name)
    requires i < |steps|
  {
    steps[i] == Erase(name, steps[i].now) || (Checks(After(map[], steps[..i]), steps[i], name) && steps[i].accepted)
  }

  /** The failed checks since the last login or erasure. */
  ghost function FailuresSince(steps: seq<Step>, name: Name): nat {
    if steps == [] || Clears(steps, |steps| - 1, name) then 0
    else FailuresSince(steps[..|steps| - 1], name) + if Fails(steps, |steps| - 1, name) then 1 else 0
  }

  /** Step `i` is the last failed check, and nothing has cleared it. */
  ghost predicate LastFailure(steps: seq<Step>, i: nat, name: Name) {
    i < |steps| && Fails(steps, i, name) && forall j :: i < j < |steps| ==> !Fails(steps, j, name) && !Clears(steps, j, name)
  }

  /** The fifth failure and every later one locks the name for thirty seconds. */
  ghost predicate LockedByHistory(steps: seq<Step>, name: Name, now: Time) {
    FailuresSince(steps, name) >= 5 && exists i: nat :: LastFailure(steps, i, name) && now < steps[i].now + 30_000
  }

  lemma StepsBefore(steps: seq<Step>, name: Name)
    requires steps != []
    ensures var before := steps[..|steps| - 1];
            forall i :: 0 <= i < |before| ==>
              && (Fails(before, i, name) <==> Fails(steps, i, name))
              && (Clears(before, i, name) <==> Clears(steps, i, name))
  {
    hide After, Checks;
    var before := steps[..|steps| - 1];
    forall i | 0 <= i < |before|
      ensures Fails(before, i, name) <==> Fails(steps, i, name)
      ensures Clears(before, i, name) <==> Clears(steps, i, name)
    {
      assert before[..i] == steps[..i];
    }
  }

  lemma {:induction false} RowTells(steps: seq<Step>, name: Name) returns (i: nat)
    ensures var (rows, n) := (After(map[], steps), FailuresSince(steps, name));
            && (n == 0 ==> name !in rows)
            && (n > 0 ==>
                  && LastFailure(steps, i, name)
                  && name in rows && rows[name] == Row(n, if n >= 5 then Some(steps[i].now + 30_000) else None))
  {
    i := 0;
    if steps != [] {
      var (before, last) := (steps[..|steps| - 1], |steps| - 1);
      i := RowTells(before, name);
      StepsBefore(steps, name);
      assert Fails(steps, last, name) <==> Checks(After(map[], before), steps[last], name) && !steps[last].accepted;
      if Fails(steps, last, name) {
        i := last;
      }
    }
  }

  /**
   After any attempts and erasures, a login is answered by the history of its name alone: while the
   last five or more checks in a row failed, and thirty seconds have not passed since the last, it is
   refused unseen; otherwise a right password logs in, and the failures are forgotten; a wrong one is
   told apart from the fifth on by the lock it brings.
   */
  lemma AnswerIff(steps: seq<Step>, name: Name, accepted: bool, now: Time)
    ensures var (answer, n) := (LoginEffect(After(map[], steps), name, accepted, now).1, FailuresSince(steps, name));
            && (answer == LoggedIn <==> accepted && !LockedByHistory(steps, name, now))
            && (answer == InvalidCredentials <==> !accepted && n < 4)
            && (LockedByHistory(steps, name, now) ==>
                  exists i: nat :: LastFailure(steps, i, name) && answer == Throttled(steps[i].now + 30_000))
            && (!accepted && n >= 4 && !LockedByHistory(steps, name, now) ==> answer == Throttled(now + 30_000))
    ensures accepted && !LockedByHistory(steps, name, now) ==>
              forall x: Time :: !LockedByHistory(steps + [Attempt(name, accepted, now)], name, x)
    ensures FailuresSince(steps + [Attempt(name, false, now)], name)
            == FailuresSince(steps, name) + if LockedByHistory(steps, name, now) then 0 else 1
  {
    var i := RowTells(steps, name);
    hide After, FailuresSince;
    assert Locked(After(map[], steps), name, now) <==> LockedByHistory(steps, name, now);
    OneMoreFailure(steps, Attempt(name, accepted, now), name);
    OneMoreFailure(steps, Attempt(name, false, now), name);
  }

  lemma OneMoreFailure(steps: seq<Step>, s: Step, name: Name)
    requires s.Attempt? && s.name == name
    ensures var more := steps + [s];
            FailuresSince(more, name) ==
              if Locked(After(map[], steps), name, s.now) then FailuresSince(steps, name)
              else if s.accepted then 0 else FailuresSince(steps, name) + 1
  {
    hide After;
    assert (steps + [s])[..|steps|] == steps;
  }
}
