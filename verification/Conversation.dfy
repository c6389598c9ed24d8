/** Conversations: turns, the requirement they add up to, and its stored revisions. */
module Conversation {
  import opened Wrappers
  import opened Text

  type Id = string
  type Time = int

  datatype Update = Update(goal: Option<Text>, scenario: Option<Text>, constraints: Option<seq<Text>>)

  /** What is known of a requirement; the empty one when no revision is stored. */
  datatype Requirement = Requirement(goal: Option<Text>, scenario: Option<Text>, constraints: Option<seq<Text>>)

  const UNKNOWN := Requirement(None, None, None)

  datatype MissingKey = GoalKey | ScenarioKey | ConstraintsKey

  datatype Prompt = AskGoal | AskScenario | AskConstraints | CanStart

  datatype Body = Said(text: Text) | Asked(prompt: Prompt)

  /** The turn of a user message: its id and its content, of which the fingerprint is an injective digest. */
  datatype Turn = Turn(id: Text, text: Text, update: Update)

  /** Messages with a turn are the user's, the others the assistant's. */
  datatype Message = Message(id: Id, ordinal: nat, turn: Option<Turn>, body: Body, createdAt: Time)

  datatype Revision = Revision(
    id: Id, number: nat, previous: Option<Id>, source: Id,
    requirement: Requirement, missing: seq<MissingKey>, ready: bool, createdAt: Time)

  datatype Title = Untitled | Titled(text: Text)

  datatype Session = Session(
    owner: Text, request: Text, title: Title, messages: seq<Message>, revisions: seq<Revision>, createdAt: Time, updatedAt: Time)

  type Sessions = map<Id, Session>

  datatype Error = Invalid | NotFound | IdempotencyConflict | WriteFailed

  // ---------------------------------------------------------------- requirements

  function NormalizeText(t: Text): Option<Text> {
    if Trim(t) == [] || |Trim(t)| > 2000 then None else Some(Trim(t))
  }

  predicate Opaque(t: Text) {
    t != [] && Trim(t) == t && |t| <= 200
  }

  /** None when one of the texts is not acceptable. */
  function NormalizeTexts(ts: seq<Text>): (r: Option<seq<Text>>)
    ensures r.Some? ==> |r.value| == |ts| && forall i :: 0 <= i < |ts| ==> NormalizeText(ts[i]) == Some(r.value[i])
  {
    if ts == [] then Some([])
    else
      match (NormalizeText(ts[0]), NormalizeTexts(ts[1..]))
      case (Some(t), Some(rest)) => Some([t] + rest)
      case _ => None
  }

  function NormalizeOptional(t: Option<Text>): Option<Option<Text>> {
    match t
    case None => Some(None)
    case Some(text) => if NormalizeText(text).None? then None else Some(NormalizeText(text))
  }

  function NormalizeUpdate(u: Update): Option<Update> {
    match (NormalizeOptional(u.goal), NormalizeOptional(u.scenario))
    case (Some(goal), Some(scenario)) =>
      if u.constraints.None? then Some(Update(goal, scenario, None))
      else if NormalizeTexts(u.constraints.value).None? then None
      else Some(Update(goal, scenario, NormalizeTexts(u.constraints.value)))
    case _ => None
  }

  /** The fields of an update replace what was known. */
  function Merge(previous: Requirement, u: Update): Requirement {
    Requirement(if u.goal.None? then previous.goal else u.goal,
                if u.scenario.None? then previous.scenario else u.scenario,
                if u.constraints.None? then previous.constraints else u.constraints)
  }

  /** `mergeRequirement`, which normalizes the update once more; None when that throws. */
  function MergeRequirement(previous: Option<Revision>, u: Update): Option<Requirement> {
    var known := if previous.None? then UNKNOWN else previous.value.requirement;
    match NormalizeUpdate(u)
    case None => None
    case Some(normalized) => Some(Merge(known, normalized))
  }

  function Missing(r: Requirement): seq<MissingKey> {
    (if r.goal.None? then [GoalKey] else [])
    + (if r.scenario.None? then [ScenarioKey] else [])
    + (if r.constraints.None? then [ConstraintsKey] else [])
  }

  function PromptFor(missing: seq<MissingKey>): Prompt {
    if GoalKey in missing then AskGoal
    else if ScenarioKey in missing then AskScenario
    else if ConstraintsKey in missing then AskConstraints
    else CanStart
  }

  predicate Changed(previous: Option<Revision>, next: Requirement) {
    previous.None? || previous.value.requirement != next
  }

  predicate Says(u: Update) {
    u.goal.Some? || u.scenario.Some? || u.constraints.Some?
  }

  // ---------------------------------------------------------------- sessions

  /** The greatest ordinal, zero when there is no message. */
  function LatestOrdinal(messages: seq<Message>): nat {
    if messages == [] then 0
    else
      var rest := LatestOrdinal(messages[..|messages| - 1]);
      if messages[|messages| - 1].ordinal > rest then messages[|messages| - 1].ordinal else rest
  }

  /** The revision with the greatest number. */
  function LatestRevision(revisions: seq<Revision>): Option<Revision> {
    if revisions == [] then None
    else
      var rest := LatestRevision(revisions[..|revisions| - 1]);
      if rest.None? || revisions[|revisions| - 1].number > rest.value.number then Some(revisions[|revisions| - 1]) else rest
  }

  /** The message of a turn, when the session has it. */
  function TurnAt(messages: seq<Message>, id: Text): (r: Option<Turn>)
    ensures r.Some? ==> exists i :: 0 <= i < |messages| && messages[i].turn == r && r.value.id == id
    ensures r.None? ==> forall i :: 0 <= i < |messages| ==> messages[i].turn.None? || messages[i].turn.value.id != id
  {
    if messages == [] then None
    else
      var last := messages[|messages| - 1];
      if last.turn.Some? && last.turn.value.id == id then last.turn else TurnAt(messages[..|messages| - 1], id)
  }

  predicate Used(sessions: Sessions, id: Id) {
    exists s, i :: s in sessions && 0 <= i < |sessions[s].messages| && sessions[s].messages[i].id == id
  }

  predicate RevisionUsed(sessions: Sessions, id: Id) {
    exists s, i :: s in sessions && 0 <= i < |sessions[s].revisions| && sessions[s].revisions[i].id == id
  }

  /** `existing` is the session stored for the owner's request, when there is one. */
  predicate ExistingFor(sessions: Sessions, owner: Text, request: Text, existing: Option<Id>) {
    match existing
    case None => forall s :: s in sessions ==> sessions[s].owner != owner || sessions[s].request != request
    case Some(s) => s in sessions && sessions[s].owner == owner && sessions[s].request == request
  }

  function NewSession(owner: Text, request: Text, message: Id, now: Time): Session {
    Session(owner, request, Untitled, [Message(message, 1, None, Asked(AskGoal), now)], [], now, now)
  }

  function CreateSession(sessions: Sessions, owner: Text, request: Text, existing: Option<Id>, id: Id, message: Id, now: Time)
    : (Sessions, Result<Id, Error>)
    requires ExistingFor(sessions, owner, request, existing)
  {
    if !Opaque(owner) || !Opaque(request) then (sessions, Err(Invalid))
    else if existing.Some? then (sessions, Ok(existing.value))
    else if id in sessions || Used(sessions, message) then (sessions, Err(WriteFailed))
    else (sessions[id := NewSession(owner, request, message, now)], Ok(id))
  }

  datatype TurnCommand = TurnCommand(owner: Text, session: Id, turn: Text, text: Text, update: Update)

  datatype TurnIds = TurnIds(user: Id, assistant: Id, revision: Id)

  function NextRevision(previous: Option<Revision>, next: Requirement, ids: TurnIds, now: Time): Revision {
    Revision(ids.revision, if previous.None? then 1 else previous.value.number + 1,
             if previous.None? then None else Some(previous.value.id), ids.user,
             next, Missing(next), Missing(next) == [], now)
  }

  /** A revision is stored only for a turn that says something and changes the requirement. */
  predicate Revises(s: Session, turn: Turn, next: Requirement) {
    Says(turn.update) && Changed(LatestRevision(s.revisions), next)
  }

  /** The session after an accepted turn that merges into `next`. */
  function WithTurn(s: Session, turn: Turn, next: Requirement, ids: TurnIds, now: Time): Session {
    var ordinal := LatestOrdinal(s.messages) + 1;
    var previous := LatestRevision(s.revisions);
    s.(messages := s.messages + [Message(ids.user, ordinal, Some(turn), Said(turn.text), now),
                                 Message(ids.assistant, ordinal + 1, None, Asked(PromptFor(Missing(next))), now)],
       revisions := if Revises(s, turn, next)
                    then s.revisions + [NextRevision(previous, next, ids, now)] else s.revisions,
       title := if turn.update.goal.Some? then Titled(turn.update.goal.value) else s.title,
       updatedAt := now)
  }

  function AppendTurn(sessions: Sessions, c: TurnCommand, ids: TurnIds, now: Time): (Sessions, Result<(), Error>) {
    if !Opaque(c.owner) || !Opaque(c.turn) || NormalizeText(c.text).None? || NormalizeUpdate(c.update).None? then (sessions, Err(Invalid))
    else
      var turn := Turn(c.turn, NormalizeText(c.text).value, NormalizeUpdate(c.update).value);
      if c.session !in sessions || sessions[c.session].owner != c.owner then (sessions, Err(NotFound))
      else
        var s := sessions[c.session];
        var existing := TurnAt(s.messages, c.turn);
        if existing.Some? then (sessions, if existing.value == turn then Ok(()) else Err(IdempotencyConflict))
        else if Used(sessions, ids.user) then (sessions, Err(WriteFailed))
        else
          match MergeRequirement(LatestRevision(s.revisions), turn.update)
          case None => (sessions, Err(Invalid))
          case Some(next) =>
            if (Revises(s, turn, next) && RevisionUsed(sessions, ids.revision))
               || Used(sessions, ids.assistant) || ids.user == ids.assistant then (sessions, Err(WriteFailed))
            else (sessions[c.session := WithTurn(s, turn, next, ids, now)], Ok(()))
  }

  // ---------------------------------------------------------------- normalization

  /** A text is taken without the white space around it, and is refused when nothing is left, or more than 2000 units. */
  lemma NormalizedTextIs(t: Text) returns (from: nat, to: nat)
    ensures from <= to <= |t|
    ensures (forall i :: 0 <= i < from ==> IsSpace(t[i])) && (forall i :: to <= i < |t| ==> IsSpace(t[i]))
    ensures from < to ==> !IsSpace(t[from]) && !IsSpace(t[to - 1])
    ensures NormalizeText(t) == if 0 < to - from <= 2000 then Some(t[from..to]) else None
  {
    from, to := TrimIs(t);
  }

  /** An opaque id has at most 200 units, and no white space at its ends. */
  lemma OpaqueIff(t: Text)
    ensures Opaque(t) <==> 0 < |t| <= 200 && !IsSpace(t[0]) && !IsSpace(t[|t| - 1])
  {
    var from, to := TrimIs(t);
    hide Trim;
    if Opaque(t) {
      assert |t[from..to]| == to - from;
    }
  }

  lemma NormalizedTextIsNormal(t: Text)
    ensures NormalizeText(t).Some? ==> NormalizeText(NormalizeText(t).value) == NormalizeText(t)
  {
    TrimIsIdempotent(t);
  }

  lemma {:induction false} NormalizedTextsAreNormal(ts: seq<Text>)
    requires forall i :: 0 <= i < |ts| ==> NormalizeText(ts[i]) == Some(ts[i])
    ensures NormalizeTexts(ts) == Some(ts)
  {
    if ts != [] {
      NormalizedTextsAreNormal(ts[1..]);
      assert ts == [ts[0]] + ts[1..];
    }
  }

  /** Normalizing an update twice is normalizing it once, so a merge never refuses an accepted turn. */
  lemma NormalizedUpdateIsNormal(u: Update)
    ensures NormalizeUpdate(u).Some? ==> NormalizeUpdate(NormalizeUpdate(u).value) == NormalizeUpdate(u)
  {
    if NormalizeUpdate(u).Some? {
      if u.goal.Some? {
        NormalizedTextIsNormal(u.goal.value);
      }
      if u.scenario.Some? {
        NormalizedTextIsNormal(u.scenario.value);
      }
      if u.constraints.Some? {
        var ts := u.constraints.value;
        var normal := NormalizeTexts(ts).value;
        forall i | 0 <= i < |normal| ensures NormalizeText(normal[i]) == Some(normal[i]) {
          NormalizedTextIsNormal(ts[i]);
        }
        NormalizedTextsAreNormal(normal);
      }
    }
  }

  // ---------------------------------------------------------------- the invariant

  /** What all turns say together: the updates of the user's messages merged in order. */
  function Fold(messages: seq<Message>): Requirement {
    if messages == [] then UNKNOWN
    else
      var (before, last) := (Fold(messages[..|messages| - 1]), messages[|messages| - 1]);
      if last.turn.Some? then Merge(before, last.turn.value.update) else before
  }

  function Current(s: Session): Requirement {
    match LatestRevision(s.revisions)
    case None => UNKNOWN
    case Some(r) => r.requirement
  }

  /** The message at a place: its ordinal, the assistant's first and then in turn, and what the user said. */
  ghost predicate Placed(m: Message, i: nat) {
    m.ordinal == i + 1 && (m.turn.None? <==> i % 2 == 0) && (m.turn.Some? ==> m.body == Said(m.turn.value.text))
  }

  ghost predicate DifferentTurns(a: Message, b: Message) {
    a.turn.Some? && b.turn.Some? ==> a.turn.value.id != b.turn.value.id
  }

  /** Ordinals 1..2t+1 with the roles in turn, and no turn id twice. */
  ghost predicate MessagesOk(messages: seq<Message>) {
    && |messages| % 2 == 1
    && (forall i :: 0 <= i < |messages| ==> Placed(messages[i], i))
    && (forall i, j :: 0 <= i < j < |messages| ==> DifferentTurns(messages[i], messages[j]))
  }

  /** Numbers 1..k, each chained to the one before, each a change, and none less ready. */
  ghost predicate RevisionsOk(revisions: seq<Revision>) {
    && (forall i :: 0 <= i < |revisions| ==> RevisionOk(revisions[i], i))
    && (revisions != [] ==> revisions[0].previous.None?)
    && (forall i :: 0 <= i < |revisions| - 1 ==> Follows(revisions[i], revisions[i + 1]))
  }

  ghost predicate RevisionOk(r: Revision, i: nat) {
    r.number == i + 1 && r.missing == Missing(r.requirement) && r.ready == (r.missing == [])
  }

  ghost predicate Follows(before: Revision, after: Revision) {
    after.previous == Some(before.id) && after.requirement != before.requirement && (before.ready ==> after.ready)
  }

  /** Every revision comes from a user's message. */
  ghost predicate SourcesOk(s: Session) {
    forall i :: 0 <= i < |s.revisions| ==> HasSource(s.messages, s.revisions[i].source)
  }

  ghost predicate HasSource(messages: seq<Message>, id: Id) {
    exists k :: 0 <= k < |messages| && messages[k].id == id && messages[k].turn.Some?
  }

  ghost predicate SomethingSaid(messages: seq<Message>) {
    exists i :: 0 <= i < |messages| && messages[i].turn.Some? && Says(messages[i].turn.value.update)
  }

  ghost predicate SessionOk(s: Session) {
    && MessagesOk(s.messages) && RevisionsOk(s.revisions) && SourcesOk(s)
    && Current(s) == Fold(s.messages)
    && (s.revisions != [] <==> SomethingSaid(s.messages))
    && s.messages[|s.messages| - 1].body == Asked(PromptFor(Missing(Fold(s.messages))))
    && s.title == TitleFor(Fold(s.messages))
  }

  /** A session is titled by its goal. */
  function TitleFor(r: Requirement): Title {
    if r.goal.None? then Untitled else Titled(r.goal.value)
  }

  lemma TurnKeepsTitle(s: Session, turn: Turn, ids: TurnIds, now: Time)
    requires s.title == TitleFor(Current(s))
    ensures var next := Merge(Current(s), turn.update); WithTurn(s, turn, next, ids, now).title == TitleFor(next)
  {
    hide Current, LatestOrdinal, LatestRevision, Missing;
  }

  lemma {:induction false} OrdinalIsLength(messages: seq<Message>)
    requires forall i :: 0 <= i < |messages| ==> messages[i].ordinal == i + 1
    ensures LatestOrdinal(messages) == |messages|
  {
    if messages != [] {
      OrdinalIsLength(messages[..|messages| - 1]);
    }
  }

  lemma {:induction false} LatestIsLast(revisions: seq<Revision>)
    requires forall i :: 0 <= i < |revisions| ==> revisions[i].number == i + 1
    ensures LatestRevision(revisions) == if revisions == [] then None else Some(revisions[|revisions| - 1])
  {
    if revisions != [] {
      LatestIsLast(revisions[..|revisions| - 1]);
    }
  }

  lemma FoldOfTurn(messages: seq<Message>, user: Message, assistant: Message)
    requires user.turn.Some? && assistant.turn.None?
    ensures Fold(messages + [user, assistant]) == Merge(Fold(messages), user.turn.value.update)
  {
    var all := messages + [user, assistant];
    assert all[..|all| - 1] == messages + [user];
    assert (messages + [user])[..|messages|] == messages;
  }

  /** Nothing known is forgotten. */
  lemma MergeKeepsReady(r: Requirement, u: Update)
    ensures Missing(r) == [] ==> Missing(Merge(r, u)) == []
  {
  }

  lemma RevisionAdded(revisions: seq<Revision>, next: Requirement, ids: TurnIds, now: Time)
    requires RevisionsOk(revisions)
    requires revisions != [] ==> next != revisions[|revisions| - 1].requirement
    requires revisions != [] && revisions[|revisions| - 1].ready ==> Missing(next) == []
    ensures var more := revisions + [NextRevision(LatestRevision(revisions), next, ids, now)];
            RevisionsOk(more) && LatestRevision(more).value.requirement == next
  {
    hide Missing, LatestRevision;
    LatestIsLast(revisions);
    var r := NextRevision(LatestRevision(revisions), next, ids, now);
    var more := revisions + [r];
    assert RevisionOk(r, |revisions|);
    assert revisions != [] ==> Follows(revisions[|revisions| - 1], r);
    LatestIsLast(more);
    hide RevisionOk, Follows;
    assert forall i :: 0 <= i < |revisions| ==> more[i] == revisions[i];
  }

  lemma MessagesAdded(messages: seq<Message>, turn: Turn, user: Message, assistant: Message)
    requires MessagesOk(messages) && TurnAt(messages, turn.id).None?
    requires user.turn == Some(turn) && user.body == Said(turn.text) && assistant.turn.None?
    requires user.ordinal == |messages| + 1 && assistant.ordinal == |messages| + 2
    ensures MessagesOk(messages + [user, assistant])
  {
    hide TurnAt;
    var all := messages + [user, assistant];
    assert Placed(user, |messages|) && Placed(assistant, |messages| + 1);
    forall i | 0 <= i < |messages| ensures DifferentTurns(messages[i], user) {
    }
    assert forall i :: 0 <= i < |all| ==> DifferentTurns(all[i], assistant);
    hide Placed, DifferentTurns;
    assert forall i :: 0 <= i < |messages| ==> all[i] == messages[i];
  }

  /** A turn that says nothing new leaves the requirement as it is. */
  lemma SilentTurn(r: Requirement, u: Update)
    ensures !Says(u) ==> Merge(r, u) == r
  {
  }

  lemma SourcesKept(s: Session, u: Session)
    requires SourcesOk(s) && s.messages <= u.messages
    requires u.revisions == s.revisions
             || (u.revisions != [] && u.revisions[..|u.revisions| - 1] == s.revisions
                 && HasSource(u.messages, u.revisions[|u.revisions| - 1].source))
    ensures SourcesOk(u)
  {
    forall i | 0 <= i < |u.revisions| ensures HasSource(u.messages, u.revisions[i].source) {
      if i < |s.revisions| {
        assert u.revisions[i] == s.revisions[i];
        assert HasSource(s.messages, s.revisions[i].source);
        var k :| 0 <= k < |s.messages| && s.messages[k].id == s.revisions[i].source && s.messages[k].turn.Some?;
        assert u.messages[k] == s.messages[k];
      }
    }
  }

  lemma SaidAdded(messages: seq<Message>, user: Message, assistant: Message)
    requires user.turn.Some? && assistant.turn.None?
    ensures SomethingSaid(messages + [user, assistant]) <==> SomethingSaid(messages) || Says(user.turn.value.update)
  {
    var all := messages + [user, assistant];
    if SomethingSaid(messages) {
      var i :| 0 <= i < |messages| && messages[i].turn.Some? && Says(messages[i].turn.value.update);
      assert all[i] == messages[i];
    }
    assert all[|messages|] == user;
  }

  lemma TurnMerges(s: Session, update: Update)
    requires NormalizeUpdate(update) == Some(update)
    ensures MergeRequirement(LatestRevision(s.revisions), update) == Some(Merge(Current(s), update))
  {
    hide NormalizeUpdate;
  }

  lemma TurnKeepsMessages(s: Session, turn: Turn, ids: TurnIds, now: Time)
    requires SessionOk(s) && TurnAt(s.messages, turn.id).None?
    ensures var next := Merge(Current(s), turn.update);
            var u := WithTurn(s, turn, next, ids, now);
            && MessagesOk(u.messages) && s.messages <= u.messages && HasSource(u.messages, ids.user)
            && Fold(u.messages) == next
            && (SomethingSaid(u.messages) <==> SomethingSaid(s.messages) || Says(turn.update))
            && u.messages[|u.messages| - 1].body == Asked(PromptFor(Missing(next)))
  {
    hide Missing, PromptFor, TurnAt, RevisionsOk, SourcesOk, Merge, Says, Fold, SomethingSaid, LatestOrdinal, LatestRevision;
    var next := Merge(Current(s), turn.update);
    var u := WithTurn(s, turn, next, ids, now);
    OrdinalIsLength(s.messages);
    var (user, assistant) := (u.messages[|s.messages|], u.messages[|s.messages| + 1]);
    assert u.messages == s.messages + [user, assistant];
    MessagesAdded(s.messages, turn, user, assistant);
    FoldOfTurn(s.messages, user, assistant);
    SaidAdded(s.messages, user, assistant);
    assert u.messages[|s.messages|].id == ids.user;
  }

  lemma TurnKeepsRevisions(s: Session, turn: Turn, ids: TurnIds, now: Time)
    requires RevisionsOk(s.revisions)
    ensures var next := Merge(Current(s), turn.update);
            var u := WithTurn(s, turn, next, ids, now);
            && RevisionsOk(u.revisions) && Current(u) == next
            && (u.revisions != [] <==> s.revisions != [] || Says(turn.update))
            && (u.revisions == s.revisions
                || u.revisions == s.revisions + [NextRevision(LatestRevision(s.revisions), next, ids, now)])
  {
    hide PromptFor, LatestOrdinal;
    var next := Merge(Current(s), turn.update);
    LatestIsLast(s.revisions);
    SilentTurn(Current(s), turn.update);
    MergeKeepsReady(Current(s), turn.update);
    assert s.revisions != [] ==> RevisionOk(s.revisions[|s.revisions| - 1], |s.revisions| - 1);
    hide Says, Merge, Missing, RevisionsOk, LatestRevision;
    if Says(turn.update) && Changed(LatestRevision(s.revisions), next) {
      RevisionAdded(s.revisions, next, ids, now);
    }
  }

  /** An accepted turn merges its update into the requirement, and keeps the session in order. */
  lemma TurnKeepsSession(s: Session, turn: Turn, ids: TurnIds, now: Time)
    requires SessionOk(s) && TurnAt(s.messages, turn.id).None?
    ensures SessionOk(WithTurn(s, turn, Merge(Current(s), turn.update), ids, now))
  {
    hide Missing, PromptFor, TurnAt, RevisionsOk, MessagesOk, Merge, Says, Fold, SomethingSaid, SourcesOk, HasSource, Current;
    var u := WithTurn(s, turn, Merge(Current(s), turn.update), ids, now);
    TurnKeepsTitle(s, turn, ids, now);
    TurnKeepsMessages(s, turn, ids, now);
    TurnKeepsRevisions(s, turn, ids, now);
    hide WithTurn;
    SourcesKept(s, u);
  }

  // ---------------------------------------------------------------- runs

  datatype Step =
    | Create(owner: Text, request: Text, existing: Option<Id>, id: Id, message: Id)
    | Append(command: TurnCommand, ids: TurnIds)

  ghost predicate Enabled(sessions: Sessions, s: Step) {
    s.Create? ==> ExistingFor(sessions, s.owner, s.request, s.existing)
  }

  ghost function Apply(sessions: Sessions, s: Step, now: Time): Sessions
    requires Enabled(sessions, s)
  {
    match s
    case Create(owner, request, existing, id, message) => CreateSession(sessions, owner, request, existing, id, message, now).0
    case Append(command, ids) => AppendTurn(sessions, command, ids, now).0
  }

  ghost predicate Inv(sessions: Sessions) {
    (forall s :: s in sessions ==> SessionOk(sessions[s])) && OnePerRequest(sessions)
  }

  /** An owner has one session for each request. */
  ghost predicate OnePerRequest(sessions: Sessions) {
    forall s, u | s in sessions && u in sessions && s != u ::
      sessions[s].owner != sessions[u].owner || sessions[s].request != sessions[u].request
  }

  /** Sessions stay, with all their messages and revisions. */
  ghost predicate Grows(t: Sessions, u: Sessions) {
    forall s :: s in t ==>
      && s in u && u[s].owner == t[s].owner && u[s].request == t[s].request
      && t[s].messages <= u[s].messages && t[s].revisions <= u[s].revisions
  }

  lemma NewSessionOk(owner: Text, request: Text, message: Id, now: Time)
    ensures SessionOk(NewSession(owner, request, message, now))
  {
    var messages := NewSession(owner, request, message, now).messages;
    assert messages[..0] == [] && Fold(messages) == UNKNOWN;
  }

  lemma AppendKeepsSession(sessions: Sessions, c: TurnCommand, ids: TurnIds, now: Time)
    requires Inv(sessions)
    ensures var u := AppendTurn(sessions, c, ids, now).0;
            || u == sessions
            || (c.session in sessions && c.session in u && u == sessions[c.session := u[c.session]] && SessionOk(u[c.session])
                && exists turn, next :: u[c.session] == WithTurn(sessions[c.session], turn, next, ids, now))
  {
    hide SessionOk, Used, RevisionUsed, Opaque, MergeRequirement, NormalizeText, NormalizeUpdate, WithTurn;
    if AppendTurn(sessions, c, ids, now).0 != sessions {
      NormalizedUpdateIsNormal(c.update);
      TurnMerges(sessions[c.session], NormalizeUpdate(c.update).value);
      TurnKeepsSession(sessions[c.session], Turn(c.turn, NormalizeText(c.text).value, NormalizeUpdate(c.update).value), ids, now);
    }
  }

  lemma CreateKeepsInv(sessions: Sessions, s: Step, now: Time)
    requires Inv(sessions) && Enabled(sessions, s) && s.Create?
    ensures Inv(Apply(sessions, s, now)) && Grows(sessions, Apply(sessions, s, now))
  {
    hide SessionOk, Used, Opaque;
    NewSessionOk(s.owner, s.request, s.message, now);
  }

  lemma AppendKeepsInv(sessions: Sessions, s: Step, now: Time)
    requires Inv(sessions) && Enabled(sessions, s) && s.Append?
    ensures Inv(Apply(sessions, s, now)) && Grows(sessions, Apply(sessions, s, now))
  {
    hide SessionOk, AppendTurn, LatestOrdinal, LatestRevision, Missing, PromptFor;
    AppendKeepsSession(sessions, s.command, s.ids, now);
  }

  lemma StepKeepsInv(sessions: Sessions, s: Step, now: Time)
    requires Inv(sessions) && Enabled(sessions, s)
    ensures Inv(Apply(sessions, s, now)) && Grows(sessions, Apply(sessions, s, now))
  {
    hide Inv, Grows, Apply, Enabled;
    if s.Create? {
      CreateKeepsInv(sessions, s, now);
    } else {
      AppendKeepsInv(sessions, s, now);
    }
  }

  datatype TimedStep = At(step: Step, now: Time)

  ghost predicate IsRun(states: seq<Sessions>, steps: seq<TimedStep>) {
    && |states| == |steps| + 1 && states[0] == map[]
    && forall i :: 0 <= i < |steps| ==>
         Enabled(states[i], steps[i].step) && states[i + 1] == Apply(states[i], steps[i].step, steps[i].now)
  }

  lemma {:induction false} RunKeepsInv(states: seq<Sessions>, steps: seq<TimedStep>, i: nat, j: nat)
    requires IsRun(states, steps) && i <= j < |states|
    ensures Inv(states[i]) && Grows(states[i], states[j])
    decreases j
  {
    hide Apply, Enabled, SessionOk, Grows;
    GrowsSelf(states[j]);
    if j > 0 {
      RunKeepsInv(states, steps, j - 1, j - 1);
      StepKeepsInv(states[j - 1], steps[j - 1].step, steps[j - 1].now);
      if i < j {
        RunKeepsInv(states, steps, i, j - 1);
        GrowsTransitive(states[i], states[j - 1], states[j]);
      }
    }
  }

  lemma GrowsSelf(t: Sessions)
    ensures Grows(t, t)
  {
  }

  lemma GrowsTransitive(t: Sessions, u: Sessions, v: Sessions)
    requires Grows(t, u) && Grows(u, v)
    ensures Grows(t, v)
  {
  }

  /** In every state, the current requirement of a session is what all its turns say together. */
  lemma CurrentIsFold(states: seq<Sessions>, steps: seq<TimedStep>, i: nat, id: Id)
    requires IsRun(states, steps) && i < |states| && id in states[i]
    ensures Current(states[i][id]) == Fold(states[i][id].messages)
    ensures states[i][id].revisions != [] <==> SomethingSaid(states[i][id].messages)
  {
    hide IsRun, Grows;
    RunKeepsInv(states, steps, i, i);
  }

  // ---------------------------------------------------------------- what the user last said

  /** The last message that gives the field gives the value; None when no message gives it. */
  ghost predicate LastGiven<T>(messages: seq<Message>, field: Update -> Option<T>, value: Option<T>) {
    match value
    case None => forall i :: 0 <= i < |messages| && messages[i].turn.Some? ==> field(messages[i].turn.value.update).None?
    case Some(_) =>
      exists i :: 0 <= i < |messages| && messages[i].turn.Some? && field(messages[i].turn.value.update) == value
        && forall j :: i < j < |messages| && messages[j].turn.Some? ==> field(messages[j].turn.value.update).None?
  }

  /** One more message: a field it gives replaces the value, and otherwise the value stays. */
  lemma LastGivenGrows<T>(messages: seq<Message>, last: Message, field: Update -> Option<T>, value: Option<T>)
    requires LastGiven(messages, field, value)
    ensures var given := if last.turn.Some? then field(last.turn.value.update) else None;
            LastGiven(messages + [last], field, if given.Some? then given else value)
  {
    var all := messages + [last];
    var given := if last.turn.Some? then field(last.turn.value.update) else None;
    if given.Some? {
      assert all[|messages|] == last;
    } else if value.Some? {
      var i :| 0 <= i < |messages| && messages[i].turn.Some? && field(messages[i].turn.value.update) == value
        && forall j :: i < j < |messages| && messages[j].turn.Some? ==> field(messages[j].turn.value.update).None?;
      assert all[i] == messages[i];
    }
  }

  lemma {:induction false} FoldIsLastGiven(messages: seq<Message>)
    ensures LastGiven(messages, (u: Update) => u.goal, Fold(messages).goal)
    ensures LastGiven(messages, (u: Update) => u.scenario, Fold(messages).scenario)
    ensures LastGiven(messages, (u: Update) => u.constraints, Fold(messages).constraints)
  {
    if messages != [] {
      var (before, last) := (messages[..|messages| - 1], messages[|messages| - 1]);
      FoldIsLastGiven(before);
      assert messages == before + [last];
      LastGivenGrows(before, last, (u: Update) => u.goal, Fold(before).goal);
      LastGivenGrows(before, last, (u: Update) => u.scenario, Fold(before).scenario);
      LastGivenGrows(before, last, (u: Update) => u.constraints, Fold(before).constraints);
      hide LastGiven;
    }
  }

  /**
   In every state, each field of the current requirement is what the last user message that gives it
   says, and is unknown exactly when no message gives it; the session is titled by the goal, and its last
   message asks for the first unknown field.
   */
  lemma CurrentIsLastGiven(states: seq<Sessions>, steps: seq<TimedStep>, i: nat, id: Id)
    requires IsRun(states, steps) && i < |states| && id in states[i]
    ensures var (s, r) := (states[i][id], Current(states[i][id]));
            && LastGiven(s.messages, (u: Update) => u.goal, r.goal)
            && LastGiven(s.messages, (u: Update) => u.scenario, r.scenario)
            && LastGiven(s.messages, (u: Update) => u.constraints, r.constraints)
            && s.title == (if r.goal.None? then Untitled else Titled(r.goal.value))
            && s.messages != []
            && Last(s.messages).body == Asked(if r.goal.None? then AskGoal else if r.scenario.None? then AskScenario
                                              else if r.constraints.None? then AskConstraints else CanStart)
            && forall k :: 0 <= k < |s.messages| && s.messages[k].turn.Some? ==> s.messages[k].body == Said(s.messages[k].turn.value.text)
  {
    hide IsRun, Grows, LastGiven, SessionOk, Current;
    RunKeepsInv(states, steps, i, i);
    SessionTells(states[i][id]);
  }

  lemma SessionTells(s: Session)
    requires SessionOk(s)
    ensures var r := Current(s);
            && LastGiven(s.messages, (u: Update) => u.goal, r.goal)
            && LastGiven(s.messages, (u: Update) => u.scenario, r.scenario)
            && LastGiven(s.messages, (u: Update) => u.constraints, r.constraints)
            && s.title == (if r.goal.None? then Untitled else Titled(r.goal.value))
            && s.messages != []
            && Last(s.messages).body == Asked(if r.goal.None? then AskGoal else if r.scenario.None? then AskScenario
                                              else if r.constraints.None? then AskConstraints else CanStart)
    ensures forall k :: 0 <= k < |s.messages| && s.messages[k].turn.Some? ==> s.messages[k].body == Said(s.messages[k].turn.value.text)
  {
    hide LastGiven, SourcesOk, RevisionsOk, Fold, Current, SomethingSaid;
    FoldIsLastGiven(s.messages);
    assert forall k :: 0 <= k < |s.messages| ==> Placed(s.messages[k], k);
  }

  function Last<T>(s: seq<T>): T
    requires s != []
  {
    s[|s| - 1]
  }

  // ---------------------------------------------------------------- logs, readiness and repetition

  /** In every state, ordinals are 1..2t+1 with the roles in turn, and revisions are chained 1..k, each a change. */
  lemma LogsAreChained(states: seq<Sessions>, steps: seq<TimedStep>, i: nat, id: Id)
    requires IsRun(states, steps) && i < |states| && id in states[i]
    ensures var s := states[i][id];
            && |s.messages| % 2 == 1
            && (forall k :: 0 <= k < |s.messages| ==> s.messages[k].ordinal == k + 1 && (s.messages[k].turn.Some? <==> k % 2 == 1))
            && (forall k :: 0 <= k < |s.revisions| ==> s.revisions[k].number == k + 1)
            && (s.revisions != [] ==> s.revisions[0].previous.None?)
            && (forall k :: 0 <= k < |s.revisions| - 1 ==>
                  && s.revisions[k + 1].previous == Some(s.revisions[k].id)
                  && s.revisions[k + 1].requirement != s.revisions[k].requirement)
  {
    hide IsRun, Grows, Missing, Fold;
    RunKeepsInv(states, steps, i, i);
    var s := states[i][id];
    assert SessionOk(s);
    hide Inv, SessionOk, SourcesOk;
    assert forall k :: 0 <= k < |s.messages| ==> Placed(s.messages[k], k);
    assert forall k :: 0 <= k < |s.revisions| ==> RevisionOk(s.revisions[k], k);
    assert forall k :: 0 <= k < |s.revisions| - 1 ==> Follows(s.revisions[k], s.revisions[k + 1]);
  }

  /** A requirement that is ready for research stays ready. */
  lemma ReadinessStays(states: seq<Sessions>, steps: seq<TimedStep>, i: nat, j: nat, id: Id)
    requires IsRun(states, steps) && i <= j < |states| && id in states[i]
    requires Missing(Current(states[i][id])) == []
    ensures id in states[j] && Missing(Current(states[j][id])) == []
  {
    hide IsRun, Missing, SessionOk, Current;
    RunKeepsInv(states, steps, i, j);
    RunKeepsInv(states, steps, j, j);
    SessionHasRevisions(states[i][id]);
    SessionHasRevisions(states[j][id]);
    ReadyRevisions(states[i][id], states[j][id]);
  }

  lemma SessionHasRevisions(s: Session)
    requires SessionOk(s)
    ensures RevisionsOk(s.revisions)
  {
    hide RevisionsOk, MessagesOk, SourcesOk;
  }

  /** The current requirement is the last revision's, which says whether it is ready. */
  lemma LastRevisionIsCurrent(s: Session)
    requires RevisionsOk(s.revisions) && s.revisions != []
    ensures var last := s.revisions[|s.revisions| - 1];
            Current(s) == last.requirement && (last.ready <==> Missing(last.requirement) == [])
  {
    hide Missing, Follows, LatestRevision;
    LatestIsLast(s.revisions);
    assert RevisionOk(s.revisions[|s.revisions| - 1], |s.revisions| - 1);
  }

  lemma NothingKnown(s: Session)
    requires s.revisions == []
    ensures Missing(Current(s)) != []
  {
  }

  lemma ReadyRevisions(before: Session, after: Session)
    requires RevisionsOk(before.revisions) && RevisionsOk(after.revisions) && before.revisions <= after.revisions
    requires Missing(Current(before)) == []
    ensures Missing(Current(after)) == []
  {
    hide RevisionsOk, Current, Missing;
    if before.revisions == [] {
      NothingKnown(before);
    } else {
      LastRevisionIsCurrent(before);
      LastRevisionIsCurrent(after);
      var n := |before.revisions|;
      assert after.revisions[n - 1] == before.revisions[n - 1];
      ReadyFrom(after.revisions, n - 1, |after.revisions| - 1);
    }
  }

  lemma {:induction false} ReadyFrom(revisions: seq<Revision>, i: nat, j: nat)
    requires RevisionsOk(revisions) && i <= j < |revisions| && revisions[i].ready
    ensures revisions[j].ready
  {
    hide RevisionOk;
    if i < j {
      ReadyFrom(revisions, i, j - 1);
      assert Follows(revisions[j - 1], revisions[j]);
    }
  }

  /** A turn that was accepted may be sent again at any time: the same content changes nothing, other content is refused. */
  lemma TurnsAreIdempotent(states: seq<Sessions>, steps: seq<TimedStep>, i: nat, j: nat,
                           c: TurnCommand, again: TurnCommand, ids: TurnIds, now: Time)
    requires IsRun(states, steps) && i < |steps| && i < j < |states|
    requires steps[i].step.Append? && steps[i].step.command == c && AppendTurn(states[i], c, steps[i].step.ids, steps[i].now).1.Ok?
    requires again.session == c.session && again.turn == c.turn && again.owner == c.owner
    requires NormalizeText(again.text).Some? && NormalizeUpdate(again.update).Some?
    ensures var (u, r) := AppendTurn(states[j], again, ids, now);
            && u == states[j]
            && r == if NormalizeText(again.text) == NormalizeText(c.text) && NormalizeUpdate(again.update) == NormalizeUpdate(c.update)
                    then Ok(()) else Err(IdempotencyConflict)
  {
    hide NormalizeText, NormalizeUpdate, Opaque, Used, RevisionUsed, SessionOk;
    AcceptedTurnIsStored(states[i], c, steps[i].step.ids, steps[i].now);
    var turn := Turn(c.turn, NormalizeText(c.text).value, NormalizeUpdate(c.update).value);
    assert states[i + 1] == AppendTurn(states[i], c, steps[i].step.ids, steps[i].now).0;
    hide AppendTurn, IsRun;
    RunKeepsInv(states, steps, i + 1, j);
    RunKeepsInv(states, steps, j, j);
    SessionHasMessages(states[j][c.session]);
    var messages := states[i + 1][c.session].messages;
    var k :| 0 <= k < |messages| && messages[k].turn == Some(turn);
    assert states[j][c.session].messages[k] == messages[k];
    StoredTurnIsFound(states[j][c.session].messages, turn, k);
    RepeatedTurn(states[j], again, turn, ids, now);
  }

  lemma SessionHasMessages(s: Session)
    requires SessionOk(s)
    ensures MessagesOk(s.messages)
  {
    hide RevisionsOk, MessagesOk, SourcesOk;
  }

  lemma AcceptedTurnIsStored(sessions: Sessions, c: TurnCommand, ids: TurnIds, now: Time)
    requires AppendTurn(sessions, c, ids, now).1.Ok?
    ensures Opaque(c.owner) && Opaque(c.turn) && NormalizeText(c.text).Some? && NormalizeUpdate(c.update).Some?
    ensures var u := AppendTurn(sessions, c, ids, now).0;
            && c.session in u && u[c.session].owner == c.owner
            && exists k :: 0 <= k < |u[c.session].messages|
                 && u[c.session].messages[k].turn == Some(Turn(c.turn, NormalizeText(c.text).value, NormalizeUpdate(c.update).value))
  {
    hide NormalizeText, NormalizeUpdate, Opaque, Used, RevisionUsed, MergeRequirement, LatestOrdinal, LatestRevision;
    var u := AppendTurn(sessions, c, ids, now).0;
    if u != sessions {
      assert u[c.session].messages[|sessions[c.session].messages|].turn.Some?;
    }
  }

  lemma StoredTurnIsFound(messages: seq<Message>, turn: Turn, k: nat)
    requires MessagesOk(messages) && k < |messages| && messages[k].turn == Some(turn)
    ensures TurnAt(messages, turn.id) == Some(turn)
  {
    hide NormalizeUpdate;
    var found := TurnAt(messages, turn.id);
    var i :| 0 <= i < |messages| && messages[i].turn == found && found.value.id == turn.id;
    assert i < k ==> DifferentTurns(messages[i], messages[k]);
    assert k < i ==> DifferentTurns(messages[k], messages[i]);
  }

  lemma RepeatedTurn(sessions: Sessions, again: TurnCommand, turn: Turn, ids: TurnIds, now: Time)
    requires Opaque(again.owner) && Opaque(again.turn) && NormalizeText(again.text).Some? && NormalizeUpdate(again.update).Some?
    requires again.session in sessions && sessions[again.session].owner == again.owner
    requires TurnAt(sessions[again.session].messages, again.turn) == Some(turn) && turn.id == again.turn
    ensures var (u, r) := AppendTurn(sessions, again, ids, now);
            && u == sessions
            && r == if NormalizeText(again.text) == Some(turn.text) && NormalizeUpdate(again.update) == Some(turn.update)
                    then Ok(()) else Err(IdempotencyConflict)
  {
    hide NormalizeText, NormalizeUpdate, Opaque, Used, RevisionUsed;
  }

  /**
   With fresh message and revision ids, exactly when a turn is accepted: its texts are in order, the session
   is the owner's, and its turn id is new or was used for the same content. Otherwise nothing changes.
   */
  lemma TurnAcceptedIff(sessions: Sessions, c: TurnCommand, ids: TurnIds, now: Time)
    requires !Used(sessions, ids.user) && !Used(sessions, ids.assistant) && ids.user != ids.assistant
    requires !RevisionUsed(sessions, ids.revision)
    ensures var r := AppendTurn(sessions, c, ids, now).1;
            && (r.Ok? <==>
                  && Opaque(c.owner) && Opaque(c.turn) && NormalizeText(c.text).Some? && NormalizeUpdate(c.update).Some?
                  && c.session in sessions && sessions[c.session].owner == c.owner
                  && TurnAt(sessions[c.session].messages, c.turn)
                     in {None, Some(Turn(c.turn, NormalizeText(c.text).value, NormalizeUpdate(c.update).value))})
            && (!r.Ok? ==> AppendTurn(sessions, c, ids, now).0 == sessions)
  {
    NormalizedUpdateIsNormal(c.update);
    if c.session in sessions && NormalizeUpdate(c.update).Some? {
      TurnMerges(sessions[c.session], NormalizeUpdate(c.update).value);
    }
    hide NormalizeText, NormalizeUpdate, Opaque, Used, RevisionUsed, MergeRequirement, WithTurn, TurnAt;
  }

  /** Creating a session again for the same owner and request, at any time, answers with that session and changes nothing. */
  lemma SessionsAreIdempotent(states: seq<Sessions>, steps: seq<TimedStep>, i: nat, j: nat, existing: Option<Id>, id: Id, message: Id, now: Time)
    requires IsRun(states, steps) && i < |steps| && i < j < |states| && steps[i].step.Create?
    requires var s := steps[i].step; CreateSession(states[i], s.owner, s.request, s.existing, s.id, s.message, steps[i].now).1.Ok?
    requires ExistingFor(states[j], steps[i].step.owner, steps[i].step.request, existing)
    ensures var s := steps[i].step;
            var first := CreateSession(states[i], s.owner, s.request, s.existing, s.id, s.message, steps[i].now).1.value;
            CreateSession(states[j], s.owner, s.request, existing, id, message, now) == (states[j], Ok(first))
  {
    var s := steps[i].step;
    var first := CreateSession(states[i], s.owner, s.request, s.existing, s.id, s.message, steps[i].now).1.value;
    assert first in states[i + 1] && states[i + 1][first].owner == s.owner && states[i + 1][first].request == s.request by {
      assert states[i + 1] == Apply(states[i], s, steps[i].now);
    }
    hide IsRun, SessionOk, Apply, NewSession, Used;
    RunKeepsInv(states, steps, i + 1, j);
    RunKeepsInv(states, steps, j, j);
  }
}
