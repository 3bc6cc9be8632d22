/** Shared commitments with an append-only event log (commitment-store.js).

    The tables `commitments` and `members` are updated by every accepted action, and one event
    is appended in the same transaction.  The main result, `EveryRunIsFaithful`, says that the
    tables always equal the fold of the log, that the revisions of a log are 1, 2, ... without a
    gap, and that every recorded `before` value is the state the action met. */
module Commitments {
  import opened Options

  datatype Status = Open | Blocked | Completed
  datatype Role = Viewer | Helper | Coach | Manager
  datatype MemberState = Invited | Accepted | Declined
  datatype Member = Member(role: Role, state: MemberState)
  datatype Verdict = Met | Partial | Missed

  datatype Row = Row(owner: nat, title: string, definition: string, date: int, zone: string,
                     status: Status, evidence: string, checkInAt: Option<int>, revision: nat)

  /** What a caller asks for.  A field is `None` where the source finds it unusable: a text that
      is missing or too long, a date that does not exist, an unknown role. */
  datatype Action =
    | Comment(note: Option<string>)
    | Challenge(note: Option<string>)
    | CheckIn(note: Option<string>, at: Option<int>)
    | Review(verdict: Option<Verdict>, note: Option<string>)
    | Complete(evidence: Option<string>)
    | Block(note: Option<string>)
    | Reopen(note: Option<string>)
    | Renegotiate(date: Option<int>, note: Option<string>)
    | Invite(userId: Option<nat>, role: Option<Role>)
    | Accept
    | Decline
    | Revoke(userId: Option<nat>)
    | UnknownKind

  /** `digest` names the whole input as the source hashes it. */
  datatype Input = Input(actionId: string, digest: nat, expectedRevision: Option<nat>, action: Action)

  datatype Fields = Fields(title: string, definition: string, date: int, zone: string)

  datatype CreateInput = CreateInput(actionId: string, digest: nat, id: string, fields: Option<Fields>)

  /** The recorded detail of an event. */
  datatype Detail =
    | Created(fields: Fields)
    | Noted(note: string)
    | CheckedIn(note: string, at: int)
    | Reviewed(note: string, verdict: Verdict, statusThen: Status, evidenceThen: string)
    | Finished(before: Status, evidence: string)
    | Moved(before: Status, status: Status, note: string)
    | Redated(beforeDate: int, date: int, note: string)
    | InvitedUser(username: string, role: Role)
    | Answered(state: MemberState)
    | RevokedUser(username: string, role: Role)

  datatype Event = Event(commitmentId: string, revision: nat, actor: nat, actionId: string, digest: nat, detail: Detail)

  type Members = map<(string, nat), Member>

  datatype State = State(commitments: map<string, Row>, members: Members, events: seq<Event>)

  /** The account table: usernames by user id. */
  type Users = map<nat, string>

  /** The blocked friendships at the time of a call. */
  type Blocks = set<(nat, nat)>

  datatype Reply = Viewed(id: string) | DeclinedInvitation(id: string) | Failed(status: int)

  // ===== Roles =====

  datatype Standing = Owner | Active(role: Role) | Asked | Outsider

  function StandingOf(blocked: Blocks, s: State, id: string, row: Row, user: nat): Standing {
    if row.owner == user then Owner
    else if (id, user) !in s.members || (user, row.owner) in blocked || (row.owner, user) in blocked then Outsider
    else match s.members[(id, user)].state
      case Accepted => Active(s.members[(id, user)].role)
      case Invited => Asked
      case Declined => Outsider
  }

  predicate MayComment(x: Standing) { x.Owner? || (x.Active? && !x.role.Viewer?) }
  predicate MayCheckIn(x: Standing) { x.Owner? || (x.Active? && (x.role.Coach? || x.role.Manager?)) }
  predicate MayChallenge(x: Standing) { x.Active? && (x.role.Coach? || x.role.Manager?) }
  predicate MayReview(x: Standing) { x.Active? && x.role.Manager? }

  // ===== One action =====

  /** What an action writes to the row and the members, with the detail it records. */
  datatype Effect = Refuse(status: int) | Write(row: Row, members: Members, detail: Detail)

  function Noting(s: State, row: Row, may: bool, note: Option<string>): Effect {
    if !may then Refuse(403) else if note.None? then Refuse(400) else Write(row, s.members, Noted(note.value))
  }

  function EffectOf(users: Users, blocked: Blocks, s: State, id: string, row: Row, who: Standing, user: nat, action: Action): Effect {
    match action
    case Comment(note) => Noting(s, row, MayComment(who), note)
    case Challenge(note) => Noting(s, row, MayChallenge(who), note)
    case CheckIn(note, at) =>
      if !MayCheckIn(who) then Refuse(403)
      else if note.None? || at.None? then Refuse(400)
      else Write(row.(checkInAt := at), s.members, CheckedIn(note.value, at.value))
    case Review(verdict, note) =>
      if !MayReview(who) then Refuse(403)
      else if verdict.None? || note.None? then Refuse(400)
      else Write(row, s.members, Reviewed(note.value, verdict.value, row.status, row.evidence))
    case Complete(evidence) =>
      if !who.Owner? then Refuse(403)
      else if evidence.None? then Refuse(400)
      else Write(row.(status := Completed, evidence := evidence.value), s.members, Finished(row.status, evidence.value))
    case Block(note) =>
      if !who.Owner? then Refuse(403)
      else if note.None? then Refuse(400)
      else Write(row.(status := Blocked), s.members, Moved(row.status, Blocked, note.value))
    case Reopen(note) =>
      if !who.Owner? then Refuse(403)
      else if note.None? then Refuse(400)
      else Write(row.(status := Open), s.members, Moved(row.status, Open, note.value))
    case Renegotiate(date, note) =>
      if !who.Owner? then Refuse(403)
      else if date.None? || note.None? then Refuse(400)
      else Write(row.(date := date.value), s.members, Redated(row.date, date.value, note.value))
    case Invite(userId, role) =>
      if !who.Owner? then Refuse(403)
      else if userId.None? then Refuse(401)
      else if userId.value == user || role.None? then Refuse(400)
      else if (user, userId.value) in blocked || (userId.value, user) in blocked then Refuse(403)
      else if userId.value !in users then Refuse(404)
      else Write(row, s.members[(id, userId.value) := Member(role.value, Invited)],
                 InvitedUser(users[userId.value], role.value))
    case Accept => Answer(s, id, row, who, user, Accepted)
    case Decline => Answer(s, id, row, who, user, Declined)
    case Revoke(userId) =>
      if !who.Owner? then Refuse(403)
      else if userId.None? then Refuse(401)
      else if (id, userId.value) !in s.members || userId.value !in users then Refuse(404)
      else Write(row, s.members - {(id, userId.value)},
                 RevokedUser(users[userId.value], s.members[(id, userId.value)].role))
    case UnknownKind => Refuse(400)
  }

  function Answer(s: State, id: string, row: Row, who: Standing, user: nat, answer: MemberState): Effect {
    if !who.Asked? || (id, user) !in s.members then Refuse(403)
    else Write(row, s.members[(id, user) := s.members[(id, user)].(state := answer)], Answered(answer))
  }

  predicate Used(events: seq<Event>, actor: nat, actionId: string) {
    exists k :: 0 <= k < |events| && events[k].actor == actor && events[k].actionId == actionId
  }

  predicate UsedFor(events: seq<Event>, actor: nat, actionId: string, id: string, digest: nat) {
    exists k :: 0 <= k < |events| && events[k].actor == actor && events[k].actionId == actionId
                && events[k].commitmentId == id && events[k].digest == digest
  }

  function Act(users: Users, blocked: Blocks, s: State, user: nat, id: string, input: Input): (State, Reply) {
    if id !in s.commitments then (s, Failed(404))
    else
      var row := s.commitments[id];
      var who := StandingOf(blocked, s, id, row, user);
      if who.Outsider? then (s, Failed(404))
      else if Used(s.events, user, input.actionId) then
        (s, if UsedFor(s.events, user, input.actionId, id, input.digest) then Viewed(id) else Failed(409))
      else if input.expectedRevision != Some(row.revision) then (s, Failed(409))
      else match EffectOf(users, blocked, s, id, row, who, user, input.action)
        case Refuse(status) => (s, Failed(status))
        case Write(row', members', detail) =>
          (State(s.commitments[id := row'.(revision := row.revision + 1)], members',
                 s.events + [Event(id, row.revision + 1, user, input.actionId, input.digest, detail)]),
           if input.action.Decline? then DeclinedInvitation(id) else Viewed(id))
  }

  function Create(s: State, user: nat, ownsWorkspace: bool, input: CreateInput): (State, Reply) {
    if input.fields.None? then (s, Failed(400))
    else if Used(s.events, user, input.actionId) then
      (s, if UsedFor(s.events, user, input.actionId, input.id, input.digest) then Viewed(input.id) else Failed(409))
    else if !ownsWorkspace then (s, Failed(403))
    else if input.id in s.commitments then (s, Failed(409))
    else
      var f := input.fields.value;
      (State(s.commitments[input.id := Row(user, f.title, f.definition, f.date, f.zone, Open, "", None, 1)], s.members,
             s.events + [Event(input.id, 1, user, input.actionId, input.digest, Created(f))]),
       Viewed(input.id))
  }

  // ===== The fold of a log =====

  function Log(events: seq<Event>, id: string): seq<Event> {
    if events == [] then []
    else
      Log(events[..|events| - 1], id)
      + (if events[|events| - 1].commitmentId == id then [events[|events| - 1]] else [])
  }

  /** What a log says about a commitment; members by username, as the log names them. */
  datatype Story = Story(status: Status, evidence: string, date: int, checkInAt: Option<int>, members: map<string, Member>)

  const BLANK := Story(Open, "", 0, None, map[])

  function Tell(users: Users, story: Story, e: Event): Story {
    match e.detail
    case Created(f) => Story(Open, "", f.date, None, map[])
    case Noted(_) => story
    case CheckedIn(_, at) => story.(checkInAt := Some(at))
    case Reviewed(_, _, _, _) => story
    case Finished(_, evidence) => story.(status := Completed, evidence := evidence)
    case Moved(_, status, _) => story.(status := status)
    case Redated(_, date, _) => story.(date := date)
    case InvitedUser(name, role) => story.(members := story.members[name := Member(role, Invited)])
    case Answered(answer) =>
      if e.actor in users && users[e.actor] in story.members
      then story.(members := story.members[users[e.actor] := story.members[users[e.actor]].(state := answer)])
      else story
    case RevokedUser(name, _) => story.(members := story.members - {name})
  }

  function Fold(users: Users, log: seq<Event>): Story {
    if log == [] then BLANK else Tell(users, Fold(users, log[..|log| - 1]), log[|log| - 1])
  }

  /** The values an event records about the state before it are those of the story so far. */
  ghost predicate BeforeIsTrue(story: Story, e: Event) {
    match e.detail
    case Reviewed(_, _, status, evidence) => status == story.status && evidence == story.evidence
    case Finished(before, _) => before == story.status
    case Moved(before, _, _) => before == story.status
    case Redated(before, _, _) => before == story.date
    case RevokedUser(name, role) => name in story.members && story.members[name].role == role
    case _ => true
  }

  // ===== The invariant =====

  ghost predicate UsernamesAreUnique(users: Users) {
    forall u, v :: u in users && v in users && users[u] == users[v] ==> u == v
  }

  /** A member row and what is told about that username. */
  ghost predicate MemberAgrees(users: Users, members: Members, id: string, told: map<string, Member>, u: nat) {
    && ((id, u) in members ==> u in users && users[u] in told && members[(id, u)] == told[users[u]])
    && (u in users && users[u] in told ==> (id, u) in members)
  }

  ghost predicate MembersAgree(users: Users, members: Members, id: string, told: map<string, Member>) {
    forall u :: MemberAgrees(users, members, id, told, u)
  }

  ghost predicate RowAgrees(row: Row, story: Story) {
    row.status == story.status && row.evidence == story.evidence
    && row.date == story.date && row.checkInAt == story.checkInAt
  }

  /** Revisions 1, 2, ... without a gap, a creation first and only there, and true `before` values. */
  ghost predicate LogIsWellFormed(users: Users, log: seq<Event>) {
    && log != []
    && forall k :: 0 <= k < |log| ==>
         && log[k].revision == k + 1
         && (log[k].detail.Created? <==> k == 0)
         && BeforeIsTrue(Fold(users, log[..k]), log[k])
  }

  /** The tables hold exactly what the log of this commitment tells. */
  ghost predicate CommitmentIsFaithful(users: Users, s: State, id: string)
    requires id in s.commitments
  {
    var log, row := Log(s.events, id), s.commitments[id];
    && LogIsWellFormed(users, log) && row.revision == |log|
    && RowAgrees(row, Fold(users, log))
    && MembersAgree(users, s.members, id, Fold(users, log).members)
    && (id, row.owner) !in s.members
  }

  ghost predicate ActionIdsAreUnique(events: seq<Event>) {
    forall j, k :: 0 <= j < k < |events| && events[j].actor == events[k].actor ==>
      events[j].actionId != events[k].actionId
  }

  ghost predicate NothingIsForeign(s: State) {
    && (forall key :: key in s.members ==> key.0 in s.commitments)
    && (forall k :: 0 <= k < |s.events| ==> s.events[k].commitmentId in s.commitments)
  }

  ghost predicate Faithful(users: Users, s: State) {
    && (forall id :: id in s.commitments ==> CommitmentIsFaithful(users, s, id))
    && NothingIsForeign(s)
    && ActionIdsAreUnique(s.events)
  }

  lemma LogGrows(events: seq<Event>, e: Event, id: string)
    ensures Log(events + [e], id) == Log(events, id) + (if e.commitmentId == id then [e] else [])
  {
    assert (events + [e])[..|events|] == events;
  }

  lemma {:induction false} LogOfStranger(events: seq<Event>, id: string)
    requires forall k :: 0 <= k < |events| ==> events[k].commitmentId != id
    ensures Log(events, id) == []
  {
    if events != [] {
      LogOfStranger(events[..|events| - 1], id);
    }
  }

  lemma FoldGrows(users: Users, log: seq<Event>, e: Event)
    ensures Fold(users, log + [e]) == Tell(users, Fold(users, log), e)
  {
    assert (log + [e])[..|log|] == log;
  }

  lemma WellFormedLogGrows(users: Users, log: seq<Event>, e: Event)
    requires LogIsWellFormed(users, log)
    requires e.revision == |log| + 1 && !e.detail.Created? && BeforeIsTrue(Fold(users, log), e)
    ensures LogIsWellFormed(users, log + [e])
  {
    var longer := log + [e];
    forall k | 0 <= k < |longer|
      ensures longer[k].revision == k + 1 && (longer[k].detail.Created? <==> k == 0)
           && BeforeIsTrue(Fold(users, longer[..k]), longer[k])
    {
      assert longer[..k] == if k < |log| then log[..k] else log;
    }
  }

  // ----- Setting and removing one member -----

  lemma MemberSet(users: Users, members: Members, id: string, told: map<string, Member>, user: nat, m: Member)
    requires UsernamesAreUnique(users) && user in users && MembersAgree(users, members, id, told)
    ensures MembersAgree(users, members[(id, user) := m], id, told[users[user] := m])
  {
    var members', told' := members[(id, user) := m], told[users[user] := m];
    forall u ensures MemberAgrees(users, members', id, told', u) {
      assert MemberAgrees(users, members, id, told, u);
    }
  }

  lemma MemberRemoved(users: Users, members: Members, id: string, told: map<string, Member>, user: nat)
    requires UsernamesAreUnique(users) && user in users && MembersAgree(users, members, id, told)
    ensures MembersAgree(users, members - {(id, user)}, id, told - {users[user]})
  {
    var members', told' := members - {(id, user)}, told - {users[user]};
    forall u ensures MemberAgrees(users, members', id, told', u) {
      assert MemberAgrees(users, members, id, told, u);
    }
  }

  lemma MembersElsewhere(users: Users, members: Members, members': Members, id: string, told: map<string, Member>)
    requires MembersAgree(users, members, id, told)
    requires forall u :: ((id, u) in members' <==> (id, u) in members)
                      && ((id, u) in members' ==> members'[(id, u)] == members[(id, u)])
    ensures MembersAgree(users, members', id, told)
  {
    forall u ensures MemberAgrees(users, members', id, told, u) {
      assert MemberAgrees(users, members, id, told, u);
    }
  }

  // ----- What an accepted action writes is what its event tells -----

  /** The effect of an action and the event recorded for it. */
  ghost predicate EffectIsTold(users: Users, s: State, id: string, row: Row, story: Story, effect: Effect, e: Event)
    requires effect.Write?
  {
    && e.detail == effect.detail && !e.detail.Created? && BeforeIsTrue(story, e)
    && RowAgrees(effect.row, Tell(users, story, e))
    && MembersAgree(users, effect.members, id, Tell(users, story, e).members)
    && effect.row.owner == row.owner && (id, row.owner) !in effect.members
    && SameElsewhere(s.members, effect.members, id)
  }

  /** Only members of this commitment differ. */
  ghost predicate SameElsewhere(members: Members, members': Members, id: string) {
    forall key: (string, nat) :: key.0 != id ==>
      (key in members' <==> key in members) && (key in members' ==> members'[key] == members[key])
  }

  lemma MemberChangeIsTold(users: Users, blocked: Blocks, s: State, id: string, row: Row, who: Standing, user: nat,
                           action: Action, story: Story, e: Event)
    requires UsernamesAreUnique(users) && user in users && who == StandingOf(blocked, s, id, row, user)
    requires RowAgrees(row, story) && MembersAgree(users, s.members, id, story.members) && (id, row.owner) !in s.members
    requires action.Invite? || action.Accept? || action.Decline? || action.Revoke?
    requires var effect := EffectOf(users, blocked, s, id, row, who, user, action);
             effect.Write? && e.detail == effect.detail && e.actor == user
    ensures EffectIsTold(users, s, id, row, story, EffectOf(users, blocked, s, id, row, who, user, action), e)
  {
    if action.Invite? {
      MemberSet(users, s.members, id, story.members, action.userId.value, Member(action.role.value, Invited));
    } else if action.Revoke? {
      assert MemberAgrees(users, s.members, id, story.members, action.userId.value);
      MemberRemoved(users, s.members, id, story.members, action.userId.value);
    } else {
      assert MemberAgrees(users, s.members, id, story.members, user);
      var answer := if action.Accept? then Accepted else Declined;
      MemberSet(users, s.members, id, story.members, user, s.members[(id, user)].(state := answer));
    }
  }

  lemma ActionIsTold(users: Users, blocked: Blocks, s: State, id: string, row: Row, who: Standing, user: nat,
                     action: Action, story: Story, e: Event)
    requires UsernamesAreUnique(users) && user in users && who == StandingOf(blocked, s, id, row, user)
    requires RowAgrees(row, story) && MembersAgree(users, s.members, id, story.members) && (id, row.owner) !in s.members
    requires var effect := EffectOf(users, blocked, s, id, row, who, user, action);
             effect.Write? && e.detail == effect.detail && e.actor == user
    ensures EffectIsTold(users, s, id, row, story, EffectOf(users, blocked, s, id, row, who, user, action), e)
  {
    if action.Invite? || action.Accept? || action.Decline? || action.Revoke? {
      MemberChangeIsTold(users, blocked, s, id, row, who, user, action, story, e);
    }
  }

  // ----- Every step keeps the tables faithful -----

  lemma OthersStayFaithful(users: Users, s: State, after: State, e: Event, id: string)
    requires id in s.commitments && CommitmentIsFaithful(users, s, id)
    requires e.commitmentId != id && after.events == s.events + [e]
    requires id in after.commitments && after.commitments[id] == s.commitments[id]
    requires SameElsewhere(s.members, after.members, e.commitmentId)
    ensures CommitmentIsFaithful(users, after, id)
  {
    LogGrows(s.events, e, id);
    assert Log(after.events, id) == Log(s.events, id);
    MembersElsewhere(users, s.members, after.members, id, Fold(users, Log(s.events, id)).members);
  }

  lemma NothingBecomesForeign(s: State, after: State, e: Event)
    requires NothingIsForeign(s) && after.events == s.events + [e] && e.commitmentId in after.commitments
    requires forall id :: id in s.commitments ==> id in after.commitments
    requires SameElsewhere(s.members, after.members, e.commitmentId)
    ensures NothingIsForeign(after)
  {
    forall key | key in after.members ensures key.0 in after.commitments {
    }
  }

  /** A step that writes one commitment and appends one event for it. */
  lemma StepIsFaithful(users: Users, s: State, after: State, e: Event)
    requires Faithful(users, s) && after.events == s.events + [e] && !Used(s.events, e.actor, e.actionId)
    requires e.commitmentId in after.commitments && CommitmentIsFaithful(users, after, e.commitmentId)
    requires after.commitments == s.commitments[e.commitmentId := after.commitments[e.commitmentId]]
    requires SameElsewhere(s.members, after.members, e.commitmentId)
    ensures Faithful(users, after)
  {
    NewEventIsUnique(s.events, e);
    NothingBecomesForeign(s, after, e);
    forall other | other in after.commitments ensures CommitmentIsFaithful(users, after, other) {
      if other != e.commitmentId {
        assert CommitmentIsFaithful(users, s, other);
        OthersStayFaithful(users, s, after, e, other);
      }
    }
  }

  lemma NewEventIsUnique(events: seq<Event>, e: Event)
    requires ActionIdsAreUnique(events) && !Used(events, e.actor, e.actionId)
    ensures ActionIdsAreUnique(events + [e])
  {
  }

  lemma ActKeepsFaithful(users: Users, blocked: Blocks, s: State, user: nat, id: string, input: Input)
    requires Faithful(users, s) && UsernamesAreUnique(users) && user in users
    ensures Faithful(users, Act(users, blocked, s, user, id, input).0)
  {
    var after := Act(users, blocked, s, user, id, input).0;
    if after != s {
      var row := s.commitments[id];
      var who := StandingOf(blocked, s, id, row, user);
      var effect := EffectOf(users, blocked, s, id, row, who, user, input.action);
      var log := Log(s.events, id);
      var e := Event(id, row.revision + 1, user, input.actionId, input.digest, effect.detail);
      assert CommitmentIsFaithful(users, s, id);
      ActionIsTold(users, blocked, s, id, row, who, user, input.action, Fold(users, log), e);
      TargetIsFaithful(users, s, id, effect, e, after);
      StepIsFaithful(users, s, after, e);
    }
  }

  /** The written row and members against the longer log. */
  lemma TargetIsFaithful(users: Users, s: State, id: string, effect: Effect, e: Event, after: State)
    requires id in s.commitments && CommitmentIsFaithful(users, s, id)
    requires effect.Write? && e.commitmentId == id && e.revision == s.commitments[id].revision + 1
    requires EffectIsTold(users, s, id, s.commitments[id], Fold(users, Log(s.events, id)), effect, e)
    requires id in after.commitments && after.commitments[id] == effect.row.(revision := e.revision)
    requires after.members == effect.members && after.events == s.events + [e]
    ensures CommitmentIsFaithful(users, after, id)
  {
    var log := Log(s.events, id);
    LogGrows(s.events, e, id);
    FoldGrows(users, log, e);
    WellFormedLogGrows(users, log, e);
  }

  /** A log of one creation. */
  lemma FirstEventIsTold(users: Users, e: Event)
    requires e.revision == 1 && e.detail.Created?
    ensures LogIsWellFormed(users, [e])
    ensures Fold(users, [e]) == Story(Open, "", e.detail.fields.date, None, map[])
  {
    assert [e][..0] == [];
  }

  lemma CreatedIsFaithful(users: Users, s: State, after: State, e: Event)
    requires NothingIsForeign(s) && e.commitmentId !in s.commitments && e.revision == 1 && e.detail.Created?
    requires after.events == s.events + [e] && after.members == s.members && e.commitmentId in after.commitments
    requires var row, f := after.commitments[e.commitmentId], e.detail.fields;
             row == Row(row.owner, f.title, f.definition, f.date, f.zone, Open, "", None, 1)
    ensures CommitmentIsFaithful(users, after, e.commitmentId)
  {
    LogGrows(s.events, e, e.commitmentId);
    LogOfStranger(s.events, e.commitmentId);
    assert Log(after.events, e.commitmentId) == [e];
    FirstEventIsTold(users, e);
    forall u: nat ensures MemberAgrees(users, after.members, e.commitmentId, map[], u) {
      assert (e.commitmentId, u) !in s.members;
    }
  }

  lemma CreateKeepsFaithful(users: Users, s: State, user: nat, ownsWorkspace: bool, input: CreateInput)
    requires Faithful(users, s)
    ensures Faithful(users, Create(s, user, ownsWorkspace, input).0)
  {
    var after := Create(s, user, ownsWorkspace, input).0;
    if after != s {
      var e := Event(input.id, 1, user, input.actionId, input.digest, Created(input.fields.value));
      CreatedIsFaithful(users, s, after, e);
      StepIsFaithful(users, s, after, e);
    }
  }

  // ===== Runs =====

  datatype Call =
    | CallCreate(user: nat, ownsWorkspace: bool, create: CreateInput)
    | CallAct(user: nat, id: string, blocked: Blocks, input: Input)

  function Step(users: Users, s: State, call: Call): (State, Reply) {
    match call
    case CallCreate(user, owns, input) => Create(s, user, owns, input)
    case CallAct(user, id, blocked, input) => Act(users, blocked, s, user, id, input)
  }

  function Run(users: Users, s: State, calls: seq<Call>): State
    decreases |calls|
  {
    if calls == [] then s else Run(users, Step(users, s, calls[0]).0, calls[1..])
  }

  lemma StepKeepsFaithful(users: Users, s: State, call: Call)
    requires Faithful(users, s) && UsernamesAreUnique(users) && call.user in users
    ensures Faithful(users, Step(users, s, call).0)
  {
    match call
    case CallCreate(user, owns, input) => CreateKeepsFaithful(users, s, user, owns, input);
    case CallAct(user, id, blocked, input) => ActKeepsFaithful(users, blocked, s, user, id, input);
  }

  /** After any run of calls by existing accounts the tables are the fold of the log. */
  lemma {:induction false} EveryRunIsFaithful(users: Users, s: State, calls: seq<Call>)
    requires Faithful(users, s) && UsernamesAreUnique(users)
    requires forall k :: 0 <= k < |calls| ==> calls[k].user in users
    ensures Faithful(users, Run(users, s, calls))
    decreases |calls|
  {
    if calls != [] {
      StepKeepsFaithful(users, s, calls[0]);
      EveryRunIsFaithful(users, Step(users, s, calls[0]).0, calls[1..]);
    }
  }

  // ===== Replays and races =====

  lemma {:induction false} LogOnlyGrows(users: Users, s: State, calls: seq<Call>)
    ensures s.events <= Run(users, s, calls).events
    decreases |calls|
  {
    if calls != [] {
      LogOnlyGrows(users, Step(users, s, calls[0]).0, calls[1..]);
    }
  }

  function ActionIdOf(call: Call): string {
    if call.CallCreate? then call.create.actionId else call.input.actionId
  }

  function TargetOf(call: Call): string {
    if call.CallCreate? then call.create.id else call.id
  }

  function DigestOf(call: Call): nat {
    if call.CallCreate? then call.create.digest else call.input.digest
  }

  /** What an accepted call appends to the log. */
  lemma AcceptedCallIsLogged(users: Users, s: State, call: Call)
    requires Step(users, s, call).0 != s
    ensures var after := Step(users, s, call).0;
            && |after.events| == |s.events| + 1
            && after.events[|s.events|].actor == call.user && after.events[|s.events|].actionId == ActionIdOf(call)
            && after.events[|s.events|].commitmentId == TargetOf(call)
            && after.events[|s.events|].digest == DigestOf(call)
  {
  }

  /** Whatever the log holds under the account and action id of a call, the call changes nothing. */
  lemma UsedIdChangesNothing(users: Users, s: State, call: Call, k: nat)
    requires k < |s.events| && s.events[k].actor == call.user && s.events[k].actionId == ActionIdOf(call)
    ensures Step(users, s, call).0 == s
    ensures Step(users, s, call).1.Viewed? ==> UsedFor(s.events, call.user, ActionIdOf(call), TargetOf(call), DigestOf(call))
    ensures (call.CallCreate? && call.create.fields.Some? && s.events[k].commitmentId == TargetOf(call)
             && s.events[k].digest == DigestOf(call)) ==> Step(users, s, call).1 == Viewed(call.create.id)
  {
  }

  /** The action id of an accepted create or action changes nothing when the account sends it again,
      after any calls, with a create or an action on any commitment; it is answered with a view only
      when it names the same commitment with the same input, and a repeated create is always. */
  lemma ReplayChangesNothing(users: Users, s: State, first: Call, calls: seq<Call>, again: Call)
    requires Faithful(users, s) && UsernamesAreUnique(users) && first.user in users
    requires forall k :: 0 <= k < |calls| ==> calls[k].user in users
    requires Step(users, s, first).0 != s && again.user == first.user && ActionIdOf(again) == ActionIdOf(first)
    ensures var later := Run(users, Step(users, s, first).0, calls);
            var replay := Step(users, later, again);
            && replay.0 == later
            && (replay.1.Viewed? ==> TargetOf(again) == TargetOf(first) && DigestOf(again) == DigestOf(first))
            && (again == first && first.CallCreate? ==> replay.1 == Viewed(first.create.id))
  {
    var after, n := Step(users, s, first).0, |s.events|;
    AcceptedCallIsLogged(users, s, first);
    StepKeepsFaithful(users, s, first);
    EveryRunIsFaithful(users, after, calls);
    LogOnlyGrows(users, after, calls);
    var later := Run(users, after, calls);
    assert later.events[n] == after.events[n];
    UsedIdChangesNothing(users, later, again, n);
    if Step(users, later, again).1.Viewed? {
      var k :| 0 <= k < |later.events| && later.events[k].actor == again.user && later.events[k].actionId == ActionIdOf(again)
        && later.events[k].commitmentId == TargetOf(again) && later.events[k].digest == DigestOf(again);
      OneEventPerAction(later.events, k, n);
    }
  }

  lemma OneEventPerAction(events: seq<Event>, j: nat, k: nat)
    requires ActionIdsAreUnique(events) && j < |events| && k < |events|
    requires events[j].actor == events[k].actor && events[j].actionId == events[k].actionId
    ensures j == k
  {
  }

  lemma {:induction false} RevisionsOnlyRise(users: Users, s: State, calls: seq<Call>, id: string)
    requires id in s.commitments
    ensures var after := Run(users, s, calls);
            id in after.commitments && s.commitments[id].revision <= after.commitments[id].revision
    decreases |calls|
  {
    if calls != [] {
      RevisionsOnlyRise(users, Step(users, s, calls[0]).0, calls[1..], id);
    }
  }

  /** Of two actions based on the same revision at most one is ever accepted. */
  lemma OneActionPerRevision(users: Users, s: State, first: Call, calls: seq<Call>, second: Call)
    requires first.CallAct? && second.CallAct? && first.id == second.id
    requires first.input.expectedRevision == second.input.expectedRevision
    requires Step(users, s, first).0 != s
    ensures var later := Run(users, Step(users, s, first).0, calls); Step(users, later, second).0 == later
  {
    RevisionsOnlyRise(users, Step(users, s, first).0, calls, first.id);
  }

  // ===== Who may do what, and what it changes, field by field =====

  predicate HasBlocked(blocked: Blocks, a: nat, b: nat) {
    (a, b) in blocked || (b, a) in blocked
  }

  predicate IsOwner(s: State, id: string, user: nat) {
    id in s.commitments && s.commitments[id].owner == user
  }

  /** Someone else than the owner with a member row in this state, and no block between the two. */
  predicate IsMember(blocked: Blocks, s: State, id: string, user: nat, state: MemberState) {
    && id in s.commitments && s.commitments[id].owner != user && !HasBlocked(blocked, user, s.commitments[id].owner)
    && (id, user) in s.members && s.members[(id, user)].state == state
  }

  predicate HoldsRole(blocked: Blocks, s: State, id: string, user: nat, roles: set<Role>) {
    IsMember(blocked, s, id, user, Accepted) && s.members[(id, user)].role in roles
  }

  predicate Sees(blocked: Blocks, s: State, id: string, user: nat) {
    IsOwner(s, id, user) || IsMember(blocked, s, id, user, Accepted) || IsMember(blocked, s, id, user, Invited)
  }

  /** The permissions: the owner manages, finishes and moves a commitment, coaches and managers
      challenge it, managers review it, and only an invitation can be answered. */
  predicate MayAsk(blocked: Blocks, s: State, id: string, user: nat, action: Action) {
    match action
    case Comment(_) => IsOwner(s, id, user) || HoldsRole(blocked, s, id, user, {Helper, Coach, Manager})
    case CheckIn(_, _) => IsOwner(s, id, user) || HoldsRole(blocked, s, id, user, {Coach, Manager})
    case Challenge(_) => HoldsRole(blocked, s, id, user, {Coach, Manager})
    case Review(_, _) => HoldsRole(blocked, s, id, user, {Manager})
    case Accept => IsMember(blocked, s, id, user, Invited)
    case Decline => IsMember(blocked, s, id, user, Invited)
    case UnknownKind => false
    case _ => IsOwner(s, id, user)
  }

  /** Every field is usable; an invitation names someone else with an account and no block either
      way, and a revocation a member with an account. */
  predicate IsUsable(users: Users, blocked: Blocks, s: State, id: string, user: nat, action: Action) {
    match action
    case Comment(note) => note.Some?
    case Challenge(note) => note.Some?
    case CheckIn(note, at) => note.Some? && at.Some?
    case Review(verdict, note) => verdict.Some? && note.Some?
    case Complete(evidence) => evidence.Some?
    case Block(note) => note.Some?
    case Reopen(note) => note.Some?
    case Renegotiate(date, note) => date.Some? && note.Some?
    case Invite(who, role) =>
      who.Some? && role.Some? && who.value != user && !HasBlocked(blocked, user, who.value) && who.value in users
    case Revoke(who) => who.Some? && (id, who.value) in s.members && who.value in users
    case _ => true
  }

  /** The action id is in the log under this account. */
  ghost predicate WasSent(s: State, user: nat, actionId: string) {
    exists e :: e in s.events && e.actor == user && e.actionId == actionId
  }

  ghost predicate WasSentFor(s: State, user: nat, actionId: string, id: string, digest: nat) {
    exists e :: e in s.events && e.actor == user && e.actionId == actionId && e.commitmentId == id && e.digest == digest
  }

  ghost predicate IsTaken(users: Users, blocked: Blocks, s: State, user: nat, id: string, input: Input) {
    && Sees(blocked, s, id, user)
    && !WasSent(s, user, input.actionId)
    && input.expectedRevision == Some(s.commitments[id].revision)
    && MayAsk(blocked, s, id, user, input.action)
    && IsUsable(users, blocked, s, id, user, input.action)
  }

  lemma UsedMeansSent(s: State, user: nat, actionId: string, id: string, digest: nat)
    ensures Used(s.events, user, actionId) == WasSent(s, user, actionId)
    ensures UsedFor(s.events, user, actionId, id, digest) == WasSentFor(s, user, actionId, id, digest)
  {
    if WasSent(s, user, actionId) {
      var e :| e in s.events && e.actor == user && e.actionId == actionId;
      var k :| 0 <= k < |s.events| && s.events[k] == e;
    }
    if WasSentFor(s, user, actionId, id, digest) {
      var e :| e in s.events && e.actor == user && e.actionId == actionId && e.commitmentId == id && e.digest == digest;
      var k :| 0 <= k < |s.events| && s.events[k] == e;
    }
  }

  lemma StandingSpeaksOfRows(blocked: Blocks, s: State, id: string, user: nat)
    requires id in s.commitments
    ensures var who := StandingOf(blocked, s, id, s.commitments[id], user);
            && (who.Owner? <==> IsOwner(s, id, user))
            && (who.Active? <==> IsMember(blocked, s, id, user, Accepted))
            && (who.Active? ==> who.role == s.members[(id, user)].role)
            && (who.Asked? <==> IsMember(blocked, s, id, user, Invited))
            && (who.Outsider? <==> !Sees(blocked, s, id, user))
  {
  }

  /** The new row: each action changes its own field, and every one draws the next revision. */
  ghost predicate RowIsActed(row: Row, acted: Row, action: Action) {
    && acted.owner == row.owner && acted.title == row.title && acted.definition == row.definition && acted.zone == row.zone
    && acted.revision == row.revision + 1
    && (action.Complete? ==> acted.status == Completed && Some(acted.evidence) == action.evidence)
    && (action.Block? ==> acted.status == Blocked)
    && (action.Reopen? ==> acted.status == Open)
    && (action.Renegotiate? ==> Some(acted.date) == action.date)
    && (action.CheckIn? ==> acted.checkInAt == action.at)
    && (!action.Complete? && !action.Block? && !action.Reopen? ==> acted.status == row.status)
    && (!action.Complete? ==> acted.evidence == row.evidence)
    && (!action.Renegotiate? ==> acted.date == row.date)
    && (!action.CheckIn? ==> acted.checkInAt == row.checkInAt)
  }

  /** The new members: an invitation asks with its role, also a member who had accepted; an answer
      keeps the role; a revocation takes the row away; nobody else's row changes. */
  ghost predicate MembersAreActed(members: Members, acted: Members, id: string, user: nat, action: Action) {
    match action
    case Invite(Some(who), Some(role)) =>
      acted.Keys == members.Keys + {(id, who)} && OthersKeep(members, acted, (id, who)) && acted[(id, who)] == Member(role, Invited)
    case Accept => IsAnswered(members, acted, (id, user), Accepted)
    case Decline => IsAnswered(members, acted, (id, user), Declined)
    case Revoke(Some(who)) => acted.Keys == members.Keys - {(id, who)} && OthersKeep(members, acted, (id, who))
    case _ => acted == members
  }

  ghost predicate IsAnswered(members: Members, acted: Members, key: (string, nat), state: MemberState) {
    && acted.Keys == members.Keys && key in members && OthersKeep(members, acted, key)
    && acted[key].role == members[key].role && acted[key].state == state
  }

  ghost predicate OthersKeep(members: Members, acted: Members, key: (string, nat)) {
    forall other :: other in members && other != key ==> other in acted && acted[other] == members[other]
  }

  /** The recorded detail carries the inputs and the values that the action met. */
  ghost predicate DetailTells(users: Users, s: State, id: string, row: Row, action: Action, detail: Detail) {
    match detail
    case Noted(note) => (action.Comment? || action.Challenge?) && action.note == Some(note)
    case CheckedIn(note, at) => action == CheckIn(Some(note), Some(at))
    case Reviewed(note, verdict, status, evidence) =>
      action == Review(Some(verdict), Some(note)) && status == row.status && evidence == row.evidence
    case Finished(before, evidence) => action == Complete(Some(evidence)) && before == row.status
    case Moved(before, status, note) =>
      && before == row.status
      && ((action == Block(Some(note)) && status == Blocked) || (action == Reopen(Some(note)) && status == Open))
    case Redated(before, date, note) => action == Renegotiate(Some(date), Some(note)) && before == row.date
    case InvitedUser(name, role) =>
      exists who :: who in users && users[who] == name && action == Invite(Some(who), Some(role))
    case Answered(state) => (action.Accept? && state == Accepted) || (action.Decline? && state == Declined)
    case RevokedUser(name, role) =>
      exists who :: who in users && users[who] == name && action == Revoke(Some(who))
                    && (id, who) in s.members && s.members[(id, who)].role == role
    case Created(_) => false
  }

  lemma EffectIsAllowed(users: Users, blocked: Blocks, s: State, id: string, user: nat, action: Action)
    requires Sees(blocked, s, id, user)
    ensures var row := s.commitments[id];
            var effect := EffectOf(users, blocked, s, id, row, StandingOf(blocked, s, id, row, user), user, action);
            && (effect.Write? <==> MayAsk(blocked, s, id, user, action) && IsUsable(users, blocked, s, id, user, action))
            && (effect.Refuse? && !MayAsk(blocked, s, id, user, action) && !action.UnknownKind? ==> effect.status == 403)
  {
    StandingSpeaksOfRows(blocked, s, id, user);
  }

  lemma EffectWritesFields(users: Users, blocked: Blocks, s: State, id: string, row: Row, who: Standing, user: nat, action: Action)
    requires EffectOf(users, blocked, s, id, row, who, user, action).Write?
    ensures var effect := EffectOf(users, blocked, s, id, row, who, user, action);
            RowIsActed(row, effect.row.(revision := row.revision + 1), action)
            && DetailTells(users, s, id, row, action, effect.detail)
  {
  }

  lemma EffectWritesMembers(users: Users, blocked: Blocks, s: State, id: string, row: Row, who: Standing, user: nat, action: Action)
    requires EffectOf(users, blocked, s, id, row, who, user, action).Write?
    ensures MembersAreActed(s.members, EffectOf(users, blocked, s, id, row, who, user, action).members, id, user, action)
  {
  }

  /** An action is taken if and only if its sender sees the commitment, has not sent its id before,
      knows the current revision, may ask for it and gives usable fields.  Then it changes the row
      and the members as its kind says, draws the next revision and appends one event that tells so;
      otherwise nothing changes. */
  lemma ActTakesExactly(users: Users, blocked: Blocks, s: State, user: nat, id: string, input: Input)
    ensures var after := Act(users, blocked, s, user, id, input).0;
            && (IsTaken(users, blocked, s, user, id, input) ==>
                  && after.commitments.Keys == s.commitments.Keys
                  && (forall other :: other in s.commitments && other != id ==> after.commitments[other] == s.commitments[other])
                  && RowIsActed(s.commitments[id], after.commitments[id], input.action)
                  && MembersAreActed(s.members, after.members, id, user, input.action)
                  && IsAppended(s, after, id, s.commitments[id].revision + 1, user, input.actionId, input.digest)
                  && DetailTells(users, s, id, s.commitments[id], input.action, after.events[|s.events|].detail))
            && (!IsTaken(users, blocked, s, user, id, input) ==> after == s)
  {
    UsedMeansSent(s, user, input.actionId, id, input.digest);
    if Sees(blocked, s, id, user) {
      EffectIsAllowed(users, blocked, s, id, user, input.action);
      var row := s.commitments[id];
      var who := StandingOf(blocked, s, id, row, user);
      if EffectOf(users, blocked, s, id, row, who, user, input.action).Write? {
        EffectWritesFields(users, blocked, s, id, row, who, user, input.action);
        EffectWritesMembers(users, blocked, s, id, row, who, user, input.action);
      }
    }
    if id in s.commitments {
      StandingSpeaksOfRows(blocked, s, id, user);
    }
  }

  ghost predicate IsAppended(s: State, after: State, id: string, revision: nat, user: nat, actionId: string, digest: nat) {
    && |after.events| == |s.events| + 1 && after.events[..|s.events|] == s.events
    && var e := after.events[|s.events|];
       e.commitmentId == id && e.revision == revision && e.actor == user && e.actionId == actionId && e.digest == digest
  }

  /** The replies: unseen commitments are missing, a repeated id is viewed only for the same input,
      a stale revision conflicts and a known action without the permission is forbidden. */
  lemma ActRepliesExactly(users: Users, blocked: Blocks, s: State, user: nat, id: string, input: Input)
    ensures var reply := Act(users, blocked, s, user, id, input).1;
            && (!Sees(blocked, s, id, user) ==> reply == Failed(404))
            && (Sees(blocked, s, id, user) && WasSent(s, user, input.actionId) ==>
                  reply == if WasSentFor(s, user, input.actionId, id, input.digest) then Viewed(id) else Failed(409))
            && (Sees(blocked, s, id, user) && !WasSent(s, user, input.actionId) ==>
                  if input.expectedRevision != Some(s.commitments[id].revision) then reply == Failed(409)
                  else if input.action.UnknownKind? then reply == Failed(400)
                  else if !MayAsk(blocked, s, id, user, input.action) then reply == Failed(403)
                  else reply.Failed? <==> !IsUsable(users, blocked, s, id, user, input.action))
            && (IsTaken(users, blocked, s, user, id, input) ==>
                  reply == if input.action == Decline then DeclinedInvitation(id) else Viewed(id))
  {
    UsedMeansSent(s, user, input.actionId, id, input.digest);
    if Sees(blocked, s, id, user) {
      EffectIsAllowed(users, blocked, s, id, user, input.action);
    }
    if id in s.commitments {
      StandingSpeaksOfRows(blocked, s, id, user);
    }
  }

  /** A create is taken if and only if its fields are usable, its action id is new, the workspace is
      the sender's and the id is free; it stores an open commitment at revision 1 with those fields,
      without evidence, check-in or members, and appends its event. */
  lemma CreateTakesExactly(s: State, user: nat, ownsWorkspace: bool, input: CreateInput)
    ensures var after, taken := Create(s, user, ownsWorkspace, input).0,
              input.fields.Some? && !WasSent(s, user, input.actionId) && ownsWorkspace && input.id !in s.commitments;
            && (taken ==>
                  && after.commitments.Keys == s.commitments.Keys + {input.id}
                  && (forall other :: other in s.commitments ==> after.commitments[other] == s.commitments[other])
                  && IsCreated(after.commitments[input.id], user, input.fields.value)
                  && after.members == s.members
                  && IsAppended(s, after, input.id, 1, user, input.actionId, input.digest)
                  && after.events[|s.events|].detail == Created(input.fields.value))
            && (!taken ==> after == s)
  {
    UsedMeansSent(s, user, input.actionId, input.id, input.digest);
  }

  predicate IsCreated(row: Row, user: nat, f: Fields) {
    && row.owner == user && row.title == f.title && row.definition == f.definition && row.date == f.date && row.zone == f.zone
    && row.status == Open && row.evidence == "" && row.checkInAt == None && row.revision == 1
  }

  // ===== The store =====

  class CommitmentStore {
    const users: map<nat, string>
    var commitments: map<string, Row>
    var members: Members
    var events: seq<Event>

    ghost function View(): State
      reads this
    {
      State(commitments, members, events)
    }

    constructor (users: map<nat, string>)
      ensures View() == State(map[], map[], []) && this.users == users
      ensures Faithful(users, View())
    {
      this.users := users;
      commitments, members, events := map[], map[], [];
    }

    method IsDuplicate(user: nat, actionId: string, id: string, digest: nat) returns (used: bool, same: bool)
      ensures used == Used(events, user, actionId)
      ensures same == UsedFor(events, user, actionId, id, digest)
    {
      used, same := false, false;
      for k := 0 to |events|
        invariant used == Used(events[..k], user, actionId)
        invariant same == UsedFor(events[..k], user, actionId, id, digest)
      {
        var e := events[k];
        assert events[..k + 1] == events[..k] + [e];
        if e.actor == user && e.actionId == actionId {
          assert events[..k + 1][k] == e;
          used := true;
          if e.commitmentId == id && e.digest == digest {
            same := true;
          }
        }
      }
      assert events[..|events|] == events;
    }

    method CreateCommitment(user: nat, ownsWorkspace: bool, input: CreateInput) returns (reply: Reply)
      modifies this
      ensures (View(), reply) == Create(old(View()), user, ownsWorkspace, input)
    {
      if input.fields.None? {
        return Failed(400);
      }
      var used, same := IsDuplicate(user, input.actionId, input.id, input.digest);
      if used {
        return if same then Viewed(input.id) else Failed(409);
      }
      if !ownsWorkspace {
        return Failed(403);
      }
      if input.id in commitments {
        return Failed(409);
      }
      var f := input.fields.value;
      commitments := commitments[input.id := Row(user, f.title, f.definition, f.date, f.zone, Open, "", None, 1)];
      events := events + [Event(input.id, 1, user, input.actionId, input.digest, Created(f))];
      return Viewed(input.id);
    }

    /** Validates one action and writes its rows; nothing is written when it is refused. */
    method Perform(id: string, who: Standing, user: nat, blocked: Blocks, action: Action) returns (detail: Option<Detail>, status: int)
      requires id in commitments
      modifies this`commitments, this`members
      ensures match EffectOf(users, blocked, old(View()), id, old(commitments)[id], who, user, action)
              case Refuse(code) => detail.None? && status == code && View() == old(View())
              case Write(row, members', d) =>
                detail == Some(d) && View() == old(View()).(commitments := old(commitments)[id := row], members := members')
    {
      var row := commitments[id];
      detail, status := None, 0;
      match action {
        case Comment(note) =>
          if !MayComment(who) { return None, 403; }
          if note.None? { return None, 400; }
          assert commitments[id := row] == commitments;
          detail := Some(Noted(note.value));
        case Challenge(note) =>
          if !MayChallenge(who) { return None, 403; }
          if note.None? { return None, 400; }
          assert commitments[id := row] == commitments;
          detail := Some(Noted(note.value));
        case CheckIn(note, at) =>
          if !MayCheckIn(who) { return None, 403; }
          if note.None? || at.None? { return None, 400; }
          detail := Some(CheckedIn(note.value, at.value));
          commitments := commitments[id := row.(checkInAt := at)];
        case Review(verdict, note) =>
          if !MayReview(who) { return None, 403; }
          if verdict.None? || note.None? { return None, 400; }
          assert commitments[id := row] == commitments;
          detail := Some(Reviewed(note.value, verdict.value, row.status, row.evidence));
        case Complete(evidence) =>
          if !who.Owner? { return None, 403; }
          if evidence.None? { return None, 400; }
          detail := Some(Finished(row.status, evidence.value));
          commitments := commitments[id := row.(status := Completed, evidence := evidence.value)];
        case Block(note) =>
          if !who.Owner? { return None, 403; }
          if note.None? { return None, 400; }
          detail := Some(Moved(row.status, Blocked, note.value));
          commitments := commitments[id := row.(status := Blocked)];
        case Reopen(note) =>
          if !who.Owner? { return None, 403; }
          if note.None? { return None, 400; }
          detail := Some(Moved(row.status, Open, note.value));
          commitments := commitments[id := row.(status := Open)];
        case Renegotiate(date, note) =>
          if !who.Owner? { return None, 403; }
          if date.None? || note.None? { return None, 400; }
          detail := Some(Redated(row.date, date.value, note.value));
          commitments := commitments[id := row.(date := date.value)];
        case Invite(userId, role) =>
          if !who.Owner? { return None, 403; }
          if userId.None? { return None, 401; }
          if userId.value == user || role.None? { return None, 400; }
          var grantee := userId.value;
          if (user, grantee) in blocked || (grantee, user) in blocked { return None, 403; }
          if grantee !in users { return None, 404; }
          assert commitments[id := row] == commitments;
          members := members[(id, grantee) := Member(role.value, Invited)];
          detail := Some(InvitedUser(users[grantee], role.value));
        case Accept =>
          if !who.Asked? || (id, user) !in members { return None, 403; }
          assert commitments[id := row] == commitments;
          members := members[(id, user) := members[(id, user)].(state := Accepted)];
          detail := Some(Answered(Accepted));
        case Decline =>
          if !who.Asked? || (id, user) !in members { return None, 403; }
          assert commitments[id := row] == commitments;
          members := members[(id, user) := members[(id, user)].(state := Declined)];
          detail := Some(Answered(Declined));
        case Revoke(userId) =>
          if !who.Owner? { return None, 403; }
          if userId.None? { return None, 401; }
          var grantee := userId.value;
          if (id, grantee) !in members || grantee !in users { return None, 404; }
          assert commitments[id := row] == commitments;
          detail := Some(RevokedUser(users[grantee], members[(id, grantee)].role));
          members := members - {(id, grantee)};
        case UnknownKind => return None, 400;
      }
    }

    method ActOn(user: nat, id: string, blocked: Blocks, input: Input) returns (reply: Reply)
      modifies this
      ensures (View(), reply) == Act(users, blocked, old(View()), user, id, input)
    {
      if id !in commitments {
        return Failed(404);
      }
      var row := commitments[id];
      var who := StandingOf(blocked, State(commitments, members, events), id, row, user);
      if who.Outsider? {
        return Failed(404);
      }
      var used, same := IsDuplicate(user, input.actionId, id, input.digest);
      if used {
        return if same then Viewed(id) else Failed(409);
      }
      if input.expectedRevision != Some(row.revision) {
        return Failed(409);
      }
      ghost var before := commitments;
      var detail, status := Perform(id, who, user, blocked, input.action);
      if detail.None? {
        return Failed(status);
      }
      ghost var written := commitments[id];
      commitments := commitments[id := commitments[id].(revision := row.revision + 1)];
      assert commitments == before[id := written.(revision := row.revision + 1)];
      events := events + [Event(id, row.revision + 1, user, input.actionId, input.digest, detail.value)];
      return if input.action.Decline? then DeclinedInvitation(id) else Viewed(id);
    }
  }
}
