/** The conversation module as the program runs it: rows inserted and updated one after another. */
module ConversationStore {
  import opened Wrappers
  import opened Text
  import opened Conversation

  /** The field of a requirement that a key stands for is not known. */
  predicate Lacks(r: Requirement, key: MissingKey) {
    match key
    case GoalKey => r.goal.None?
    case ScenarioKey => r.scenario.None?
    case ConstraintsKey => r.constraints.None?
  }

  /** The order in which a user is asked. */
  function Rank(key: MissingKey): nat {
    match key
    case GoalKey => 0
    case ScenarioKey => 1
    case ConstraintsKey => 2
  }

  ghost predicate Ascending(keys: seq<MissingKey>) {
    forall i, j :: 0 <= i < j < |keys| ==> Rank(keys[i]) < Rank(keys[j])
  }

  /** The question that a missing key leads to. */
  function Question(key: MissingKey): Prompt {
    match key
    case GoalKey => AskGoal
    case ScenarioKey => AskScenario
    case ConstraintsKey => AskConstraints
  }

  /**
   The keys of the fields that are not known, pushed one by one: all of them and no others, each once
   and in the order of asking, so the user is asked the first of them next.
   */
  method MissingKeys(r: Requirement) returns (missing: seq<MissingKey>)
    ensures forall key :: key in missing <==> Lacks(r, key)
    ensures forall i, j :: 0 <= i < j < |missing| ==> Rank(missing[i]) < Rank(missing[j])
    ensures PromptFor(missing) == if missing == [] then CanStart else Question(missing[0])
  {
    missing := [];
    if r.goal.None? {
      missing := missing + [GoalKey];
    }
    if r.scenario.None? {
      missing := missing + [ScenarioKey];
    }
    if r.constraints.None? {
      missing := missing + [ConstraintsKey];
    }
  }

  lemma HasFirst(keys: seq<MissingKey>)
    ensures keys != [] <==> exists key :: key in keys
  {
    assert keys != [] ==> keys[0] in keys;
  }

  lemma {:induction false} SameKeysSameList(a: seq<MissingKey>, b: seq<MissingKey>)
    requires Ascending(a) && Ascending(b) && forall key :: key in a <==> key in b
    ensures a == b
  {
    HasFirst(a);
    HasFirst(b);
    if a != [] && b != [] {
      assert a[0] in b && b[0] in a;
      var (restA, restB) := (a[1..], b[1..]);
      assert a[0] == b[0];
      assert a == [a[0]] + restA && b == [b[0]] + restB;
      assert a[0] !in restA && b[0] !in restB;
      assert forall key :: key in a <==> key == a[0] || key in restA;
      assert forall key :: key in b <==> key == b[0] || key in restB;
      SameKeysSameList(restA, restB);
    }
  }

  /** There is only one such list: the one a revision of the requirement is stored with. */
  lemma MissingIsTheOnlyList(keys: seq<MissingKey>, r: Requirement)
    requires Ascending(keys)
    ensures (forall key :: key in keys <==> Lacks(r, key)) <==> keys == Missing(r)
  {
    assert forall key :: key in Missing(r) <==> Lacks(r, key);
    assert Ascending(Missing(r));
    if forall key :: key in keys <==> Lacks(r, key) {
      SameKeysSameList(keys, Missing(r));
    }
  }

  /** `sameStrings`. */
  method SameStrings(left: Option<seq<Text>>, right: Option<seq<Text>>) returns (same: bool)
    ensures same <==> left == right
  {
    if left.None? || right.None? {
      return left == right;
    }
    if |left.value| != |right.value| {
      return false;
    }
    for i := 0 to |left.value|
      invariant left.value[..i] == right.value[..i]
    {
      if left.value[i] != right.value[i] {
        return false;
      }
      assert left.value[..i + 1] == left.value[..i] + [left.value[i]];
      assert right.value[..i + 1] == right.value[..i] + [right.value[i]];
    }
    assert left.value[..|left.value|] == left.value && right.value[..|right.value|] == right.value;
    return true;
  }

  method RequirementChanged(previous: Option<Revision>, next: Requirement) returns (changed: bool)
    ensures changed <==> Changed(previous, next)
  {
    if previous.None? || previous.value.requirement.goal != next.goal || previous.value.requirement.scenario != next.scenario {
      return true;
    }
    var same := SameStrings(previous.value.requirement.constraints, next.constraints);
    return !same;
  }

  class Store {
    var sessions: Sessions

    constructor ()
      ensures sessions == map[]
    {
      sessions := map[];
    }

    method Create(owner: Text, request: Text, existing: Option<Id>, id: Id, message: Id, now: Time) returns (r: Result<Id, Error>)
      requires ExistingFor(sessions, owner, request, existing)
      modifies this
      ensures (sessions, r) == CreateSession(old(sessions), owner, request, existing, id, message, now)
    {
      if !Opaque(owner) || !Opaque(request) {
        return Err(Invalid);
      }
      if existing.Some? {
        return Ok(existing.value);
      }
      if id in sessions || Used(sessions, message) {
        return Err(WriteFailed);
      }
      sessions := sessions[id := Session(owner, request, Untitled, [], [], now, now)];
      ghost var begun := sessions;
      var greeting := Message(message, 1, None, Asked(AskGoal), now);
      InsertMessage(id, greeting);
      assert [] + [greeting] == [greeting] && begun[id := sessions[id]] == old(sessions)[id := sessions[id]];
      assert sessions == old(sessions)[id := NewSession(owner, request, message, now)];
      return Ok(id);
    }

    method InsertMessage(session: Id, m: Message)
      requires session in sessions
      modifies this
      ensures sessions == old(sessions)[session := old(sessions)[session].(messages := old(sessions)[session].messages + [m])]
    {
      sessions := sessions[session := sessions[session].(messages := sessions[session].messages + [m])];
    }

    method InsertRevision(session: Id, r: Revision)
      requires session in sessions
      modifies this
      ensures sessions == old(sessions)[session := old(sessions)[session].(revisions := old(sessions)[session].revisions + [r])]
    {
      sessions := sessions[session := sessions[session].(revisions := sessions[session].revisions + [r])];
    }

    method AppendUserTurn(c: TurnCommand, ids: TurnIds, now: Time) returns (r: Result<(), Error>)
      modifies this
      ensures (sessions, r) == AppendTurn(old(sessions), c, ids, now)
    {
      hide NormalizeText, NormalizeUpdate, Opaque, Used, RevisionUsed, LatestOrdinal, LatestRevision, TurnAt, Missing;
      var text, update := NormalizeText(c.text), NormalizeUpdate(c.update);
      if !Opaque(c.owner) || !Opaque(c.turn) || text.None? || update.None? {
        return Err(Invalid);
      }
      if c.session !in sessions || sessions[c.session].owner != c.owner {
        return Err(NotFound);
      }
      var turn := Turn(c.turn, text.value, update.value);
      var s := sessions[c.session];
      var existing := TurnAt(s.messages, c.turn);
      if existing.Some? {
        if existing.value != turn {
          return Err(IdempotencyConflict);
        }
        return Ok(());
      }
      if Used(sessions, ids.user) {
        return Err(WriteFailed);
      }
      var begun := sessions;
      var ordinal := LatestOrdinal(s.messages) + 1;
      InsertMessage(c.session, Message(ids.user, ordinal, Some(turn), Said(turn.text), now));
      var previous := LatestRevision(s.revisions);
      var merged := MergeRequirement(previous, turn.update);
      if merged.None? {
        sessions := begun;
        return Err(Invalid);
      }
      hide MergeRequirement;
      var accepted := Accept(c.session, turn, merged.value, ordinal, ids, now, begun);
      if !accepted {
        sessions := begun;
        return Err(WriteFailed);
      }
      return Ok(());
    }

    /** The inserts that follow the user's message; false when a revision or message id is taken. */
    method Accept(session: Id, turn: Turn, next: Requirement, ordinal: nat, ids: TurnIds, now: Time, ghost begun: Sessions)
      returns (accepted: bool)
      requires session in begun && ordinal == LatestOrdinal(begun[session].messages) + 1
      requires sessions == begun[session := begun[session].(
                 messages := begun[session].messages + [Message(ids.user, ordinal, Some(turn), Said(turn.text), now)])]
      modifies this
      ensures accepted <==>
                && !(Revises(begun[session], turn, next) && RevisionUsed(begun, ids.revision))
                && !Used(begun, ids.assistant) && ids.assistant != ids.user
      ensures accepted ==> sessions == begun[session := WithTurn(begun[session], turn, next, ids, now)]
    {
      hide Missing, LatestOrdinal, LatestRevision, Used, RevisionUsed;
      ghost var s := begun[session];
      ghost var user := Message(ids.user, ordinal, Some(turn), Said(turn.text), now);
      var previous := LatestRevision(sessions[session].revisions);
      var missing := MissingKeys(next);
      MissingIsTheOnlyList(missing, next);
      var changed := RequirementChanged(previous, next);
      UsedAfter(begun, sessions, session, user, ids);
      if Says(turn.update) && changed {
        if RevisionUsed(sessions, ids.revision) {
          return false;
        }
        InsertRevision(session, Revision(
          ids.revision, if previous.None? then 1 else previous.value.number + 1,
          if previous.None? then None else Some(previous.value.id), ids.user, next, missing, missing == [], now));
        MessagesUsedAfter(begun, sessions, session, user, ids.assistant);
      }
      if Used(sessions, ids.assistant) {
        return false;
      }
      InsertMessage(session, Message(ids.assistant, ordinal + 1, None, Asked(PromptFor(missing)), now));
      var titled := sessions[session];
      sessions := sessions[session := titled.(
        title := if turn.update.goal.Some? then Titled(turn.update.goal.value) else titled.title, updatedAt := now)];
      assert sessions[session] == WithTurn(s, turn, next, ids, now);
      return true;
    }

    /** The ids in use once the user's message is inserted: its own, and those from before. */
    lemma MessagesUsedAfter(begun: Sessions, now: Sessions, session: Id, user: Message, id: Id)
      requires session in begun && session in now && now == begun[session := now[session]]
      requires now[session].messages == begun[session].messages + [user]
      ensures Used(now, id) <==> Used(begun, id) || id == user.id
    {
      var before := begun[session].messages;
      if Used(begun, id) {
        var s, i :| s in begun && 0 <= i < |begun[s].messages| && begun[s].messages[i].id == id;
        assert now[s].messages[i].id == id;
      }
      if id == user.id {
        assert now[session].messages[|before|].id == id;
      }
      if Used(now, id) {
        var s, i :| s in now && 0 <= i < |now[s].messages| && now[s].messages[i].id == id;
        assert s != session || i < |before| ==> begun[s].messages[i].id == id;
      }
    }

    lemma UsedAfter(begun: Sessions, now: Sessions, session: Id, user: Message, ids: TurnIds)
      requires session in begun && now == begun[session := begun[session].(messages := begun[session].messages + [user])]
      ensures Used(now, ids.assistant) <==> Used(begun, ids.assistant) || ids.assistant == user.id
      ensures RevisionUsed(now, ids.revision) <==> RevisionUsed(begun, ids.revision)
    {
      MessagesUsedAfter(begun, now, session, user, ids.assistant);
      assert forall s :: s in now <==> s in begun;
      assert forall s :: s in now ==> now[s].revisions == begun[s].revisions;
    }
  }
}
