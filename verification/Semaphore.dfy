/** The abortable semaphore that limits concurrent installs. */
module Semaphore {
  type Id = string

  /** The semaphore, and what has become of the calls to acquire it, in the order they came. */
  datatype State = State(
    active: int, waiters: seq<Id>,
    arrivals: seq<Id>, grants: seq<Id>, rejected: set<Id>, released: set<Id>)

  const START := State(0, [], [], [], {}, {})

  datatype Event =
    | Acquire(caller: Id, aborted: bool)
    | Abort(caller: Id)
    | Release(caller: Id)

  /** Each call is made once, and releases once what it was granted. */
  ghost predicate Possible(s: State, e: Event) {
    match e
    case Acquire(caller, _) => caller !in s.arrivals
    case Abort(_) => true
    case Release(caller) => caller in s.grants && caller !in s.released
  }

  /** `waiters` without its first `caller`, when there is one. */
  function Without(waiters: seq<Id>, caller: Id): seq<Id> {
    if waiters == [] then []
    else if waiters[0] == caller then waiters[1..]
    else [waiters[0]] + Without(waiters[1..], caller)
  }

  function Acquired(s: State, capacity: int, caller: Id, aborted: bool): State {
    var arrived := s.(arrivals := s.arrivals + [caller]);
    if aborted then arrived.(rejected := s.rejected + {caller})
    else if s.active < capacity then arrived.(active := s.active + 1, grants := s.grants + [caller])
    else arrived.(waiters := s.waiters + [caller])
  }

  /** The signal of a call fires: it matters only to a call that waits. */
  function Aborted(s: State, caller: Id): State {
    if caller in s.waiters then s.(waiters := Without(s.waiters, caller), rejected := s.rejected + {caller}) else s
  }

  function Released(s: State, caller: Id): State {
    var freed := s.(released := s.released + {caller});
    if s.waiters == [] then freed.(active := s.active - 1)
    else freed.(waiters := s.waiters[1..], grants := s.grants + [s.waiters[0]])
  }

  function Apply(s: State, capacity: int, e: Event): State {
    match e
    case Acquire(caller, aborted) => Acquired(s, capacity, caller, aborted)
    case Abort(caller) => Aborted(s, caller)
    case Release(caller) => Released(s, caller)
  }

  class AbortableSemaphore {
    var active: int
    var waiters: seq<Id>
    const capacity: int
    ghost var history: State

    ghost predicate Valid()
      reads this
    {
      history.active == active && history.waiters == waiters && InOrder(history, capacity)
    }

    constructor (capacity: int)
      ensures Valid() && this.capacity == capacity && history == START
    {
      active, waiters, history := 0, [], START;
      this.capacity := capacity;
    }

    /** Returns whether the call was granted at once; a call that was neither granted nor aborted waits. */
    method Acquire(caller: Id, aborted: bool) returns (granted: bool)
      requires Valid() && Possible(history, Event.Acquire(caller, aborted))
      modifies this
      ensures Valid() && history == Acquired(old(history), capacity, caller, aborted)
      ensures granted <==> caller in history.grants
    {
      EventKeepsOrder(history, capacity, Event.Acquire(caller, aborted));
      NotYetGranted(history, capacity, caller);
      hide InOrder;
      granted := false;
      if !aborted {
        if active < capacity {
          active := active + 1;
          granted := true;
        } else {
          waiters := waiters + [caller];
        }
      }
      history := Acquired(history, capacity, caller, aborted);
    }

    /** `waiters.indexOf(caller)`; -1 when there is none. */
    method IndexOf(caller: Id) returns (index: int)
      ensures -1 <= index < |waiters|
      ensures index >= 0 ==> waiters[index] == caller
      ensures forall i :: 0 <= i < (if index >= 0 then index else |waiters|) ==> waiters[i] != caller
    {
      for i := 0 to |waiters|
        invariant forall j :: 0 <= j < i ==> waiters[j] != caller
      {
        if waiters[i] == caller {
          return i;
        }
      }
      return -1;
    }

    method OnAbort(caller: Id)
      requires Valid()
      modifies this
      ensures Valid() && history == Aborted(old(history), caller)
    {
      hide InOrder, Without;
      EventKeepsOrder(history, capacity, Abort(caller));
      var index := IndexOf(caller);
      if index >= 0 {
        WithoutFirst(waiters, caller, index);
        waiters := waiters[..index] + waiters[index + 1..];
      }
      history := Aborted(history, caller);
    }

    method Release(caller: Id)
      requires Valid() && Possible(history, Event.Release(caller))
      modifies this
      ensures Valid() && history == Released(old(history), caller)
    {
      hide InOrder;
      EventKeepsOrder(history, capacity, Event.Release(caller));
      if waiters == [] {
        active := active - 1;
      } else {
        waiters := waiters[1..];
      }
      history := Released(history, caller);
    }
  }

  lemma {:induction false} WithoutFirst(waiters: seq<Id>, caller: Id, index: nat)
    requires index < |waiters| && waiters[index] == caller && forall i :: 0 <= i < index ==> waiters[i] != caller
    ensures Without(waiters, caller) == waiters[..index] + waiters[index + 1..]
  {
    if index > 0 {
      WithoutFirst(waiters[1..], caller, index - 1);
      assert waiters[..index] + waiters[index + 1..] == [waiters[0]] + (waiters[1..][..index - 1] + waiters[1..][index..]);
    }
  }

  // ---------------------------------------------------------------- the invariant

  ghost predicate Distinct(s: seq<Id>) {
    forall i, j :: 0 <= i < j < |s| ==> s[i] != s[j]
  }

  /** The calls that were not rejected, in the order they came. */
  function Served(arrivals: seq<Id>, rejected: set<Id>): seq<Id> {
    if arrivals == [] then []
    else
      var (rest, last) := (arrivals[..|arrivals| - 1], arrivals[|arrivals| - 1]);
      if last in rejected then Served(rest, rejected) else Served(rest, rejected) + [last]
  }

  /**
   The active count is grants less releases and within the capacity, calls wait only when it is full,
   and the grants followed by the waiters are the unrejected calls in the order they came.
   */
  ghost predicate InOrder(s: State, capacity: int) {
    && s.active == |s.grants| - |s.released|
    && 0 <= s.active && (s.active <= capacity || s.active == 0)
    && (s.waiters != [] ==> s.active >= capacity)
    && Distinct(s.arrivals)
    && (forall id :: id in s.rejected ==> id in s.arrivals)
    && (forall id :: id in s.released ==> id in s.grants)
    && s.grants + s.waiters == Served(s.arrivals, s.rejected)
  }

  /** Who is served: exactly the unrejected arrivals, each once. */
  lemma {:induction false} ServedAre(arrivals: seq<Id>, rejected: set<Id>)
    requires Distinct(arrivals)
    ensures Distinct(Served(arrivals, rejected))
    ensures forall id :: id in Served(arrivals, rejected) <==> id in arrivals && id !in rejected
  {
    if arrivals != [] {
      ServedAre(arrivals[..|arrivals| - 1], rejected);
      assert arrivals == arrivals[..|arrivals| - 1] + [arrivals[|arrivals| - 1]];
    }
  }

  /** A new call, rejected or not. */
  lemma ServedGrows(arrivals: seq<Id>, caller: Id, rejected: set<Id>)
    requires caller !in arrivals
    ensures Served(arrivals + [caller], rejected)
            == if caller in rejected then Served(arrivals, rejected) else Served(arrivals, rejected) + [caller]
  {
    assert (arrivals + [caller])[..|arrivals|] == arrivals;
  }

  /** Rejecting a call that has not come changes nothing. */
  lemma {:induction false} ServedIgnores(arrivals: seq<Id>, caller: Id, rejected: set<Id>)
    requires caller !in arrivals
    ensures Served(arrivals, rejected + {caller}) == Served(arrivals, rejected)
  {
    if arrivals != [] {
      ServedIgnores(arrivals[..|arrivals| - 1], caller, rejected);
    }
  }

  lemma {:induction false} WithoutLast(s: seq<Id>, last: Id, caller: Id)
    ensures caller in s ==> Without(s + [last], caller) == Without(s, caller) + [last]
    ensures caller !in s ==> Without(s + [caller], caller) == s
  {
    if s == [] {
      assert [last] == s + [last];
    } else {
      WithoutLast(s[1..], last, caller);
      assert (s + [last])[1..] == s[1..] + [last] && (s + [caller])[1..] == s[1..] + [caller];
    }
  }

  /** Rejecting a served call takes it out. */
  lemma {:induction false} ServedLoses(arrivals: seq<Id>, caller: Id, rejected: set<Id>)
    requires Distinct(arrivals) && caller in arrivals && caller !in rejected
    ensures Served(arrivals, rejected + {caller}) == Without(Served(arrivals, rejected), caller)
  {
    var (rest, last) := (arrivals[..|arrivals| - 1], arrivals[|arrivals| - 1]);
    assert arrivals == rest + [last];
    ServedAre(rest, rejected);
    WithoutLast(Served(rest, rejected), last, caller);
    if last == caller {
      ServedIgnores(rest, caller, rejected);
    } else {
      ServedLoses(rest, caller, rejected);
    }
  }

  /** Taking a waiter out of the line leaves the grants before it. */
  lemma {:induction false} WithoutAfter(grants: seq<Id>, waiters: seq<Id>, caller: Id)
    requires caller !in grants
    ensures Without(grants + waiters, caller) == grants + Without(waiters, caller)
  {
    if grants == [] {
      assert grants + waiters == waiters;
    } else {
      WithoutAfter(grants[1..], waiters, caller);
      assert (grants + waiters)[1..] == grants[1..] + waiters;
    }
  }

  lemma NotYetGranted(s: State, capacity: int, caller: Id)
    requires InOrder(s, capacity) && caller !in s.arrivals
    ensures caller !in s.grants
  {
    ServedAre(s.arrivals, s.rejected);
    assert forall k :: 0 <= k < |s.grants| ==> s.grants[k] == (s.grants + s.waiters)[k];
  }

  lemma AcquireKeepsOrder(s: State, capacity: int, caller: Id, aborted: bool)
    requires InOrder(s, capacity) && caller !in s.arrivals
    ensures InOrder(Acquired(s, capacity, caller, aborted), capacity)
  {
    var t := Acquired(s, capacity, caller, aborted);
    ServedIgnores(s.arrivals, caller, s.rejected);
    ServedGrows(s.arrivals, caller, t.rejected);
    if !aborted && s.active < capacity {
      assert s.waiters == [] && s.grants + s.waiters == s.grants;
    } else if !aborted {
      assert s.grants + (s.waiters + [caller]) == s.grants + s.waiters + [caller];
    }
  }

  lemma AbortKeepsOrder(s: State, capacity: int, caller: Id)
    requires InOrder(s, capacity)
    ensures InOrder(Aborted(s, caller), capacity)
  {
    if caller in s.waiters {
      var i :| 0 <= i < |s.waiters| && s.waiters[i] == caller;
      assert (s.grants + s.waiters)[|s.grants| + i] == caller;
      ServedAre(s.arrivals, s.rejected);
      assert forall k :: 0 <= k < |s.grants| ==> s.grants[k] == (s.grants + s.waiters)[k];
      ServedLoses(s.arrivals, caller, s.rejected);
      WithoutAfter(s.grants, s.waiters, caller);
    }
  }

  lemma ReleaseKeepsOrder(s: State, capacity: int, caller: Id)
    requires InOrder(s, capacity) && caller in s.grants && caller !in s.released
    ensures InOrder(Released(s, caller), capacity)
  {
    ReleasesAreFewer(s, capacity, caller);
    if s.waiters != [] {
      assert s.grants + [s.waiters[0]] + s.waiters[1..] == s.grants + s.waiters;
    } else {
      assert s.grants + [] == s.grants;
    }
  }

  /** Only grants are released, so there is an active call before every release. */
  lemma ReleasesAreFewer(s: State, capacity: int, caller: Id)
    requires InOrder(s, capacity) && caller in s.grants && caller !in s.released
    ensures s.active > 0
  {
    ServedAre(s.arrivals, s.rejected);
    assert Distinct(s.grants) by {
      assert forall k :: 0 <= k < |s.grants| ==> s.grants[k] == (s.grants + s.waiters)[k];
    }
    var all := set k | 0 <= k < |s.grants| :: s.grants[k];
    CountDistinct(s.grants);
    SmallerSet(s.released + {caller}, all);
  }

  lemma {:induction false} CountDistinct(s: seq<Id>)
    requires Distinct(s)
    ensures |set k | 0 <= k < |s| :: s[k]| == |s|
  {
    if s != [] {
      var rest := s[..|s| - 1];
      CountDistinct(rest);
      assert (set k | 0 <= k < |s| :: s[k]) == (set k | 0 <= k < |rest| :: rest[k]) + {s[|s| - 1]};
    }
  }

  lemma {:induction false} SmallerSet(a: set<Id>, b: set<Id>)
    requires a <= b
    ensures |a| <= |b|
    decreases |a|
  {
    if a != {} {
      var x :| x in a;
      SmallerSet(a - {x}, b - {x});
    }
  }

  lemma EventKeepsOrder(s: State, capacity: int, e: Event)
    requires InOrder(s, capacity) && Possible(s, e)
    ensures InOrder(Apply(s, capacity, e), capacity)
  {
    hide InOrder;
    match e
    case Acquire(caller, aborted) => AcquireKeepsOrder(s, capacity, caller, aborted);
    case Abort(caller) => AbortKeepsOrder(s, capacity, caller);
    case Release(caller) => ReleaseKeepsOrder(s, capacity, caller);
  }

  // ---------------------------------------------------------------- runs

  ghost predicate IsRun(states: seq<State>, events: seq<Event>, capacity: int) {
    && |states| == |events| + 1 && states[0] == START
    && forall i :: 0 <= i < |events| ==> Possible(states[i], events[i]) && states[i + 1] == Apply(states[i], capacity, events[i])
  }

  lemma {:induction false} RunKeepsOrder(states: seq<State>, events: seq<Event>, capacity: int, i: nat)
    requires IsRun(states, events, capacity) && i < |states|
    ensures InOrder(states[i], capacity)
  {
    hide Apply, Possible;
    if i > 0 {
      RunKeepsOrder(states, events, capacity, i - 1);
      EventKeepsOrder(states[i - 1], capacity, events[i - 1]);
    }
  }

  /**
   In every interleaving: the active count is grants less releases and at most the capacity; calls wait
   only when it is full; no call is granted twice, or granted and rejected; and the granted calls, then
   the waiting ones, are the calls that were not rejected, in the order they came.
   */
  lemma FirstComeFirstServed(states: seq<State>, events: seq<Event>, capacity: int, i: nat)
    requires IsRun(states, events, capacity) && i < |states| && capacity >= 0
    ensures var s := states[i];
            && s.active == |s.grants| - |s.released| && 0 <= s.active <= capacity
            && (s.waiters != [] ==> s.active == capacity)
            && Distinct(s.grants + s.waiters)
            && (forall id :: id in s.grants + s.waiters <==> id in s.arrivals && id !in s.rejected)
            && s.grants + s.waiters == Served(s.arrivals, s.rejected)
  {
    RunKeepsOrder(states, events, capacity, i);
    ServedAre(states[i].arrivals, states[i].rejected);
  }

  /** A grant and a rejection are final. */
  lemma {:induction false} OutcomesAreFinal(states: seq<State>, events: seq<Event>, capacity: int, i: nat, j: nat)
    requires IsRun(states, events, capacity) && i <= j < |states|
    ensures states[i].grants <= states[j].grants && states[i].rejected <= states[j].rejected
    decreases j
  {
    if i < j {
      OutcomesAreFinal(states, events, capacity, i, j - 1);
      assert states[j] == Apply(states[j - 1], capacity, events[j - 1]);
    }
  }

  /** What the event makes of the call it is about. */
  ghost predicate RejectsAt(s: State, e: Event, id: Id) {
    || e == Acquire(id, true)
    || (e == Abort(id) && id in s.waiters)
  }

  /**
   In every interleaving a call is rejected exactly when it came with its signal aborted, or its signal was
   aborted while it waited; a call that was not rejected is granted or waits.
   */
  lemma {:induction false} RejectedIff(states: seq<State>, events: seq<Event>, capacity: int, i: nat, id: Id)
    requires IsRun(states, events, capacity) && i < |states|
    ensures id in states[i].rejected <==> exists k :: 0 <= k < i && RejectsAt(states[k], events[k], id)
  {
    if i > 0 {
      RejectedIff(states, events, capacity, i - 1, id);
      var (s, e) := (states[i - 1], events[i - 1]);
      assert Possible(s, e) && states[i] == Apply(s, capacity, e);
      assert id in states[i].rejected <==> id in s.rejected || RejectsAt(s, e, id);
      if RejectsAt(s, e, id) {
        assert RejectsAt(states[i - 1], events[i - 1], id);
      }
      hide RejectsAt;
    }
  }

  lemma {:induction false} WithoutIsOut(waiters: seq<Id>, id: Id)
    requires Distinct(waiters)
    ensures id !in Without(waiters, id)
  {
    if waiters != [] && waiters[0] != id {
      WithoutIsOut(waiters[1..], id);
    }
  }

  /** An abort takes a waiting call out of the line at once; for any other call it changes nothing. */
  lemma AbortEndsWaiting(s: State, capacity: int, id: Id)
    requires InOrder(s, capacity)
    ensures var t := Aborted(s, id);
            && id !in t.waiters && t.grants == s.grants && t.active == s.active
            && (if id in s.waiters then id in t.rejected && |t.waiters| == |s.waiters| - 1 else t == s)
  {
    WaitersAreDistinct(s, capacity);
    WithoutIsOut(s.waiters, id);
    WithoutLength(s.waiters, id);
    hide InOrder;
  }

  lemma WaitersAreDistinct(s: State, capacity: int)
    requires InOrder(s, capacity)
    ensures Distinct(s.waiters)
  {
    ServedAre(s.arrivals, s.rejected);
    var all := s.grants + s.waiters;
    assert forall k :: 0 <= k < |s.waiters| ==> s.waiters[k] == all[|s.grants| + k];
  }

  lemma {:induction false} WithoutLength(waiters: seq<Id>, id: Id)
    ensures |Without(waiters, id)| == if id in waiters then |waiters| - 1 else |waiters|
  {
    if waiters != [] && waiters[0] != id {
      WithoutLength(waiters[1..], id);
      assert id in waiters <==> id in waiters[1..] by {
        assert waiters == [waiters[0]] + waiters[1..];
      }
    }
  }

  /** A call that comes is granted at once exactly when it is not aborted and there is room, and else waits unless it is aborted. */
  lemma AcquireIff(s: State, capacity: int, id: Id, aborted: bool)
    requires InOrder(s, capacity) && id !in s.arrivals
    ensures var t := Acquired(s, capacity, id, aborted);
            && (id in t.grants <==> !aborted && s.active < capacity)
            && (id in t.waiters <==> !aborted && s.active >= capacity)
            && (id in t.rejected <==> aborted)
  {
    ServedAre(s.arrivals, s.rejected);
    var all := s.grants + s.waiters;
    assert forall k :: 0 <= k < |s.grants| ==> s.grants[k] == all[k];
    assert forall k :: 0 <= k < |s.waiters| ==> s.waiters[k] == all[|s.grants| + k];
  }

  /** A release makes room: it grants the first waiter, or frees a place when nobody waits. */
  lemma ReleaseMakesRoom(s: State, capacity: int, id: Id)
    requires InOrder(s, capacity) && Possible(s, Release(id))
    ensures var t := Released(s, id);
            if s.waiters == [] then t.active == s.active - 1 && t.grants == s.grants
            else t.active == s.active && t.grants == s.grants + [s.waiters[0]] && t.waiters == s.waiters[1..]
  {
  }
}
