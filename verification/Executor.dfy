/** The executor's receipts: which attempt answers a command, and when a new one is started. */
module Executor {
  import opened Wrappers
  import opened Text
  import CanonicalJson

  type Id = string

  datatype Command = Command(execution: Id, body: CanonicalJson.Json)

  /** An attempt under way, or the kind of outcome it has had. */
  datatype Progress = UnderWay | Settled(retryable: bool)

  datatype Attempt = Attempt(command: Command, progress: Progress)

  /** `attempt` is the place in the list of attempts, which stands for the promise. */
  datatype Receipt = Receipt(fingerprint: Text, attempt: Option<nat>)

  /** The receipts, and all attempts started so far in the order of their start. */
  datatype State = State(receipts: map<Id, Receipt>, attempts: seq<Attempt>)

  datatype Answer = Joined(attempt: nat) | Started(attempt: nat) | Conflict

  function Execute(s: State, c: Command): (State, Answer) {
    var fingerprint := CanonicalJson.Canonicalize(c.body);
    var known := c.execution in s.receipts;
    if known && s.receipts[c.execution].fingerprint == fingerprint && s.receipts[c.execution].attempt.Some? then
      (s, Joined(s.receipts[c.execution].attempt.value))
    else if known && s.receipts[c.execution].fingerprint != fingerprint then (s, Conflict)
    else
      (State(s.receipts[c.execution := Receipt(fingerprint, Some(|s.attempts|))], s.attempts + [Attempt(c, UnderWay)]),
       Started(|s.attempts|))
  }

  function Settle(s: State, k: nat, retryable: bool): State
    requires k < |s.attempts|
  {
    s.(attempts := s.attempts[k := s.attempts[k].(progress := Settled(retryable))])
  }

  /** What follows a settled attempt: the receipt of a retryable one is opened again, if it is still its own. */
  function AfterSettled(s: State, k: nat): State
    requires k < |s.attempts|
  {
    var a := s.attempts[k];
    var id := a.command.execution;
    if a.progress == Settled(true) && id in s.receipts && s.receipts[id].attempt == Some(k)
    then s.(receipts := s.receipts[id := s.receipts[id].(attempt := None)]) else s
  }

  class DecisionTaskExecutor {
    var receipts: map<Id, Receipt>
    var attempts: seq<Attempt>

    function Contents(): State
      reads this
    {
      State(receipts, attempts)
    }

    constructor ()
      ensures Contents() == State(map[], [])
    {
      receipts, attempts := map[], [];
    }

    method ExecuteAttempt(c: Command) returns (answer: Answer)
      modifies this
      ensures (Contents(), answer) == Execute(old(Contents()), c)
    {
      var fingerprint := CanonicalJson.Canonicalize(c.body);
      if c.execution in receipts {
        var receipt := receipts[c.execution];
        if receipt.fingerprint == fingerprint && receipt.attempt.Some? {
          return Joined(receipt.attempt.value);
        }
        if receipt.fingerprint != fingerprint {
          return Conflict;
        }
      }
      answer := Started(|attempts|);
      attempts := attempts + [Attempt(c, UnderWay)];
      receipts := receipts[c.execution := Receipt(fingerprint, Some(answer.attempt))];
    }

    method OnSettled(k: nat)
      requires k < |attempts|
      modifies this`receipts
      ensures Contents() == AfterSettled(old(Contents()), k)
    {
      var id := attempts[k].command.execution;
      if attempts[k].progress == Settled(true) && id in receipts && receipts[id].attempt == Some(k) {
        receipts := receipts[id := receipts[id].(attempt := None)];
      }
    }
  }

  // ---------------------------------------------------------------- runs

  datatype Event = Call(command: Command) | Outcome(attempt: nat, retryable: bool) | Callback(attempt: nat)

  /** An attempt settles once, and its callback runs after it. */
  ghost predicate Possible(s: State, e: Event) {
    match e
    case Call(c) => CanonicalJson.WellFormed(c.body)
    case Outcome(k, _) => k < |s.attempts| && s.attempts[k].progress == UnderWay
    case Callback(k) => k < |s.attempts| && s.attempts[k].progress.Settled?
  }

  ghost function Apply(s: State, e: Event): State
    requires Possible(s, e)
  {
    match e
    case Call(c) => Execute(s, c).0
    case Outcome(k, retryable) => Settle(s, k, retryable)
    case Callback(k) => AfterSettled(s, k)
  }

  /** An attempt has a receipt of its command; unless the receipt names it, it ended in a retryable outcome. */
  ghost predicate AttemptOk(s: State, k: nat)
    requires k < |s.attempts|
  {
    var a := s.attempts[k];
    && CanonicalJson.WellFormed(a.command.body)
    && a.command.execution in s.receipts
    && s.receipts[a.command.execution].fingerprint == CanonicalJson.Canonicalize(a.command.body)
    && (s.receipts[a.command.execution].attempt != Some(k) ==> a.progress == Settled(true))
  }

  ghost predicate Inv(s: State) {
    && (forall k :: 0 <= k < |s.attempts| ==> AttemptOk(s, k))
    && (forall id :: id in s.receipts && s.receipts[id].attempt.Some? ==>
          s.receipts[id].attempt.value < |s.attempts| && s.attempts[s.receipts[id].attempt.value].command.execution == id)
  }

  lemma EventKeepsInv(s: State, e: Event)
    requires Inv(s) && Possible(s, e)
    ensures Inv(Apply(s, e))
  {
    hide CanonicalJson.Canonicalize, CanonicalJson.WellFormed;
    var t := Apply(s, e);
    forall k | 0 <= k < |t.attempts| ensures AttemptOk(t, k) {
      assert k < |s.attempts| ==> AttemptOk(s, k);
    }
  }

  ghost predicate IsRun(states: seq<State>, events: seq<Event>) {
    && |states| == |events| + 1 && states[0] == State(map[], [])
    && forall i :: 0 <= i < |events| ==> Possible(states[i], events[i]) && states[i + 1] == Apply(states[i], events[i])
  }

  lemma {:induction false} RunKeepsInv(states: seq<State>, events: seq<Event>, i: nat)
    requires IsRun(states, events) && i < |states|
    ensures Inv(states[i])
  {
    hide Apply, Possible;
    if i > 0 {
      RunKeepsInv(states, events, i - 1);
      hide Inv;
      EventKeepsInv(states[i - 1], events[i - 1]);
    }
  }

  /**
   In every run, two attempts of one execution id are of the same command up to the order of object
   members, and only one of them can be under way or have an outcome that is not to be retried.
   */
  lemma OneAttemptAtATime(states: seq<State>, events: seq<Event>, i: nat, j: nat, k: nat)
    requires IsRun(states, events) && i < |states| && j < k < |states[i].attempts|
    requires states[i].attempts[j].command.execution == states[i].attempts[k].command.execution
    ensures CanonicalJson.Equivalent(states[i].attempts[j].command.body, states[i].attempts[k].command.body)
    ensures states[i].attempts[j].progress == Settled(true) || states[i].attempts[k].progress == Settled(true)
  {
    hide IsRun, CanonicalJson.Canonicalize, CanonicalJson.WellFormed, CanonicalJson.Equivalent;
    RunKeepsInv(states, events, i);
    assert AttemptOk(states[i], j) && AttemptOk(states[i], k);
    CanonicalJson.CanonicalTextIsNormalForm(states[i].attempts[j].command.body, states[i].attempts[k].command.body);
  }

  /**
   In every run, a command is refused exactly when an attempt of its execution id was of another
   command, and starts a new attempt only when every earlier one of its id ended to be retried.
   */
  lemma CommandsStartIff(states: seq<State>, events: seq<Event>, i: nat, c: Command)
    requires IsRun(states, events) && i < |states| && CanonicalJson.WellFormed(c.body)
    ensures var (s, answer) := (states[i], Execute(states[i], c).1);
            && (answer == Conflict <==>
                  exists k :: 0 <= k < |s.attempts| && s.attempts[k].command.execution == c.execution
                    && !CanonicalJson.Equivalent(s.attempts[k].command.body, c.body))
            && (answer.Started? ==>
                  forall k :: 0 <= k < |s.attempts| && s.attempts[k].command.execution == c.execution ==>
                    s.attempts[k].progress == Settled(true))
            && (answer.Joined? ==>
                  answer.attempt < |s.attempts| && s.attempts[answer.attempt].command.execution == c.execution
                  && CanonicalJson.Equivalent(s.attempts[answer.attempt].command.body, c.body))
  {
    hide IsRun, CanonicalJson.Canonicalize, CanonicalJson.WellFormed, CanonicalJson.Equivalent;
    RunKeepsInv(states, events, i);
    ReceiptsHaveAttempts(states, events, i);
    var s := states[i];
    forall k | 0 <= k < |s.attempts| && s.attempts[k].command.execution == c.execution ensures Agrees(s, c, k) {
      AttemptAgrees(s, c, k);
    }
    if c.execution in s.receipts {
      assert HasAttempt(s, c.execution);
      var k :| 0 <= k < |s.attempts| && s.attempts[k].command.execution == c.execution;
      assert Agrees(s, c, k);
    }
  }

  /** The receipt has the fingerprint of `c` exactly when the attempt is of the same command; else the attempt is over. */
  ghost predicate Agrees(s: State, c: Command, k: nat)
    requires k < |s.attempts|
  {
    && c.execution in s.receipts
    && (s.receipts[c.execution].fingerprint == CanonicalJson.Canonicalize(c.body)
        <==> CanonicalJson.Equivalent(s.attempts[k].command.body, c.body))
    && (s.receipts[c.execution].attempt != Some(k) ==> s.attempts[k].progress == Settled(true))
  }

  lemma AttemptAgrees(s: State, c: Command, k: nat)
    requires Inv(s) && k < |s.attempts| && s.attempts[k].command.execution == c.execution && CanonicalJson.WellFormed(c.body)
    ensures Agrees(s, c, k)
  {
    hide CanonicalJson.Canonicalize, CanonicalJson.WellFormed, CanonicalJson.Equivalent;
    assert AttemptOk(s, k);
    CanonicalJson.CanonicalTextIsNormalForm(s.attempts[k].command.body, c.body);
  }

  ghost predicate HasAttempt(s: State, id: Id) {
    exists k :: 0 <= k < |s.attempts| && s.attempts[k].command.execution == id
  }

  lemma {:induction false} ReceiptsHaveAttempts(states: seq<State>, events: seq<Event>, i: nat)
    requires IsRun(states, events) && i < |states|
    ensures forall id :: id in states[i].receipts ==> HasAttempt(states[i], id)
  {
    hide CanonicalJson.Canonicalize, CanonicalJson.WellFormed;
    if i > 0 {
      ReceiptsHaveAttempts(states, events, i - 1);
      var (s, t) := (states[i - 1], states[i]);
      assert t == Apply(s, events[i - 1]);
      hide IsRun;
      forall id | id in t.receipts ensures HasAttempt(t, id) {
        if id in s.receipts {
          assert HasAttempt(s, id);
          var k :| 0 <= k < |s.attempts| && s.attempts[k].command.execution == id;
          assert t.attempts[k].command == s.attempts[k].command;
        } else {
          assert t.attempts[|s.attempts|].command.execution == id;
        }
      }
    }
  }

  // ---------------------------------------------------------------- when a command starts again

  /** The callback of attempt `k` has run. */
  ghost predicate CalledBack(events: seq<Event>, k: nat) {
    exists e :: 0 <= e < |events| && events[e] == Callback(k)
  }

  /** Attempt `k` ended to be retried, and its callback has run. */
  ghost predicate GivenBack(s: State, events: seq<Event>, k: nat)
    requires k < |s.attempts|
  {
    s.attempts[k].progress == Settled(true) && CalledBack(events, k)
  }

  /** The receipt of a command names an attempt exactly until that attempt is given back. */
  ghost predicate NamedUntilGivenBack(s: State, events: seq<Event>) {
    && (forall k: nat :: CalledBack(events, k) ==> k < |s.attempts| && s.attempts[k].progress.Settled?)
    && forall k :: 0 <= k < |s.attempts| ==>
         var id := s.attempts[k].command.execution;
         id in s.receipts && (s.receipts[id].attempt == Some(k) <==> !GivenBack(s, events, k))
  }

  lemma OneMoreEvent(events: seq<Event>, e: Event)
    ensures forall k: nat :: CalledBack(events + [e], k) <==> CalledBack(events, k) || e == Callback(k)
  {
    var more := events + [e];
    forall k: nat ensures CalledBack(more, k) <==> CalledBack(events, k) || e == Callback(k) {
      if CalledBack(events, k) {
        var i :| 0 <= i < |events| && events[i] == Callback(k);
        assert more[i] == Callback(k);
      }
      assert more[|events|] == e;
    }
  }

  lemma EventKeepsNames(s: State, events: seq<Event>, e: Event)
    requires Inv(s) && Possible(s, e) && NamedUntilGivenBack(s, events)
    ensures NamedUntilGivenBack(Apply(s, e), events + [e])
  {
    hide CanonicalJson.Canonicalize, CanonicalJson.WellFormed, CalledBack;
    OneMoreEvent(events, e);
  }

  lemma {:induction false} RunNames(states: seq<State>, events: seq<Event>, i: nat)
    requires IsRun(states, events) && i < |states|
    ensures NamedUntilGivenBack(states[i], events[..i])
  {
    hide Apply, Possible;
    if i > 0 {
      RunNames(states, events, i - 1);
      RunKeepsInv(states, events, i - 1);
      hide Inv, NamedUntilGivenBack;
      EventKeepsNames(states[i - 1], events[..i - 1], events[i - 1]);
      assert events[..i - 1] + [events[i - 1]] == events[..i];
    }
  }

  /** Attempt `k` of `s` is of the same command as `c`. */
  ghost predicate SameCommand(s: State, k: nat, c: Command)
    requires k < |s.attempts|
  {
    s.attempts[k].command.execution == c.execution && CanonicalJson.Equivalent(s.attempts[k].command.body, c.body)
  }

  /**
   In every run, a command is answered by an attempt exactly when that attempt is of the same command
   and is not yet given back; it starts a new attempt exactly when every attempt of its execution id
   is of the same command, ended to be retried, and has had its callback.
   */
  lemma StartsAgainIff(states: seq<State>, events: seq<Event>, i: nat, c: Command)
    requires IsRun(states, events) && i < |states| && CanonicalJson.WellFormed(c.body)
    ensures var (s, (t, answer)) := (states[i], Execute(states[i], c));
            && (forall k :: 0 <= k < |s.attempts| ==>
                  (answer == Joined(k) <==> SameCommand(s, k, c) && !GivenBack(s, events[..i], k)))
            && (answer.Started? <==>
                  forall k :: 0 <= k < |s.attempts| && s.attempts[k].command.execution == c.execution ==>
                    SameCommand(s, k, c) && GivenBack(s, events[..i], k))
            && t.attempts == if answer.Started? then s.attempts + [Attempt(c, UnderWay)] else s.attempts
  {
    hide IsRun, CanonicalJson.Canonicalize, CanonicalJson.WellFormed, CanonicalJson.Equivalent, CalledBack;
    RunKeepsInv(states, events, i);
    RunNames(states, events, i);
    ReceiptsHaveAttempts(states, events, i);
    var s := states[i];
    forall k | 0 <= k < |s.attempts| && s.attempts[k].command.execution == c.execution ensures Agrees(s, c, k) {
      AttemptAgrees(s, c, k);
    }
    if c.execution in s.receipts {
      assert HasAttempt(s, c.execution);
      var k :| 0 <= k < |s.attempts| && s.attempts[k].command.execution == c.execution;
      assert Agrees(s, c, k);
    }
  }
}
