/**
 * The coordinator process: the team store, the assignment queue and the map
 * from live sockets to teams, with one method per socket event and REST
 * route.  Each method applies the corresponding Session transition and
 * returns the messages it would emit, addressed to a socket, to a team's
 * room, or to a room minus the sender.
 */
module Server {
  import opened Wrappers
  import opened Bits
  import opened Puzzle
  import opened Session

  /** A row of the assignment queue collection. */
  datatype QueueEntry = QueueEntry(teamId: TeamId, position: nat, completed: bool)

  datatype Target =
    | ToSocket(socketId: SocketId)
    | ToRoom(room: TeamId)
    | ToRoomExcept(room: TeamId, sender: SocketId)

  datatype Payload =
    | TeamState(view: TeamView)
    | TeammateJoined(joined: SocketId, memberCount: nat)
    | TeammateLeft(left: SocketId, onlineCount: nat)
    | Round1Result(success: bool, message: string, waitingForTeammate: Option<bool>, key8bit: Option<string>)
    | EncryptionResult(success: bool, message: string)
    | CiphertextReceived(ciphertext: string)
    | DecryptionResult(success: bool, message: string, timeElapsed: Option<int>, resubmissions: Option<nat>)
    | CompetitionComplete(elapsed: int, resubmissionCount: nat)
    | Error(message: string)

  datatype Event = Event(to: Target, payload: Payload)

  /** An HTTP reply: a JSON body, or a status code with an error message. */
  datatype Reply<T> = Ok(body: T) | Failure(status: nat, error: string)

  datatype LoginBody = LoginBody(teamId: TeamId, teamName: string)

  /** The body of `GET /api/team/:teamId`: top-level fields followed by the projection. */
  datatype TeamResponse = TeamResponse(
    teamId: TeamId, teamName: string, ciphertext: string,
    assignedNumber: Option<nat>, encryptionValue: Option<nat>,
    resubmissions: nat, completionTime: Option<int>, state: TeamView)

  const InvalidRole := "Invalid role. Use encrypt or decrypt."
  const TeamNotFound := "Team not found"
  const WrongKey := "Incorrect key"
  const KeyVerified := "Key verified. Waiting for teammate..."
  const Round1Done := "Round 1 complete! Expanding key..."
  const NotEncrypter := "Only the encrypt teammate can submit encryption"
  const Transmitted := "Ciphertext transmitted to Teammate B"
  const NotDecrypter := "Only the decrypt teammate can submit decryption"
  const Round2Done := "Round 2 complete!"
  const WrongDecryption := "Incorrect decryption"
  const OtherTeam := "Unauthorized: Cannot access other team data"
  const MissingFields := "Missing teamId or teamName"
  const AlreadyAssigned := "Team already assigned"
  const JoinFailed := "Failed to join team"

  /**
   * The schema marks `teamId` and `teamName` as required, and the required
   * check refuses an empty string, so `team.save()` of a new record only
   * succeeds with both non-empty.
   */
  predicate Creatable(teamId: TeamId, teamName: string)
  {
    teamId != "" && teamName != ""
  }

  // ---------------------------------------------------------------------
  // Invariants of the whole store

  /** `countDocuments({ completed: true })`. */
  function CompletedCount(q: seq<QueueEntry>): (n: nat)
    ensures n <= |q|
  {
    if q == [] then 0 else CompletedCount(q[..|q| - 1]) + (if q[|q| - 1].completed then 1 else 0)
  }

  predicate QueueWellFormed(q: seq<QueueEntry>)
  {
    forall i :: 0 <= i < |q| ==> q[i].position == i && q[i].completed
  }

  /** The record stored under `id`, if there is one, is valid and filed under its own id. */
  predicate TeamValidAt(teams: map<TeamId, Team>, id: TeamId)
  {
    id in teams ==> teams[id].teamId == id && TeamValid(teams[id])
  }

  ghost predicate TeamsValid(teams: map<TeamId, Team>)
  {
    forall id :: TeamValidAt(teams, id)
  }

  /** The queue position each team records. */
  function Positions(teams: map<TeamId, Team>): (r: map<TeamId, Option<nat>>)
    ensures r.Keys == teams.Keys
    ensures forall id :: id in teams ==> r[id] == teams[id].queuePosition
  {
    map id | id in teams :: teams[id].queuePosition
  }

  /** Entry `i`, if there is one, holds position `i`, is completed, and is issued to a team recording it. */
  predicate EntryMatches(pos: map<TeamId, Option<nat>>, queue: seq<QueueEntry>, i: int)
  {
    0 <= i < |queue| ==>
      && queue[i].position == i && queue[i].completed
      && queue[i].teamId in pos && pos[queue[i].teamId] == Some(i)
  }

  /** A position recorded under `id` is in the queue, under `id`. */
  predicate PositionMatches(pos: map<TeamId, Option<nat>>, queue: seq<QueueEntry>, id: TeamId)
  {
    id in pos && pos[id].Some? ==> pos[id].value < |queue| && queue[pos[id].value].teamId == id
  }

  /**
   * The queue holds positions 0, 1, 2, ... in order, each issued to a team
   * that records it, and every recorded position is in the queue under the
   * team recording it.
   */
  ghost predicate QueueMatches(pos: map<TeamId, Option<nat>>, queue: seq<QueueEntry>)
  {
    (forall i :: EntryMatches(pos, queue, i)) && (forall id :: PositionMatches(pos, queue, id))
  }

  /** Every stored team is valid and filed under its own id, and the queue matches the teams. */
  ghost predicate StoreValid(teams: map<TeamId, Team>, queue: seq<QueueEntry>)
  {
    TeamsValid(teams) && QueueMatches(Positions(teams), queue)
  }

  lemma StoredTeamValid(teams: map<TeamId, Team>, queue: seq<QueueEntry>, id: TeamId)
    requires StoreValid(teams, queue) && id in teams
    ensures teams[id].teamId == id && TeamValid(teams[id])
  {
    assert TeamValidAt(teams, id);
  }

  lemma MatchesWellFormed(pos: map<TeamId, Option<nat>>, queue: seq<QueueEntry>)
    requires QueueMatches(pos, queue)
    ensures QueueWellFormed(queue)
  {
    forall i | 0 <= i < |queue| ensures queue[i].position == i && queue[i].completed {
      assert EntryMatches(pos, queue, i);
    }
  }

  /** In a well-formed queue every entry is completed, so the next position is its length. */
  lemma {:induction false} CompletedCountIsLength(q: seq<QueueEntry>)
    requires QueueWellFormed(q)
    ensures CompletedCount(q) == |q|
  {
    if q != [] {
      var p := q[..|q| - 1];
      assert QueueWellFormed(p) by {
        forall i | 0 <= i < |p| ensures p[i].position == i && p[i].completed {
          assert p[i] == q[i];
        }
      }
      CompletedCountIsLength(p);
    }
  }

  /**
   * Each position is issued to exactly one team, and no two teams record
   * the same position.
   */
  lemma PositionsIssuedOnce(teams: map<TeamId, Team>, queue: seq<QueueEntry>)
    requires StoreValid(teams, queue)
    ensures forall i, j :: 0 <= i < j < |queue| ==> queue[i].teamId != queue[j].teamId
    ensures forall a, b :: a in teams && b in teams && a != b && teams[a].queuePosition.Some? ==>
      teams[a].queuePosition != teams[b].queuePosition
  {
    var pos := Positions(teams);
    forall i, j | 0 <= i < j < |queue| ensures queue[i].teamId != queue[j].teamId {
      assert EntryMatches(pos, queue, i) && EntryMatches(pos, queue, j);
    }
    forall a, b | a in teams && b in teams && a != b && teams[a].queuePosition.Some?
      ensures teams[a].queuePosition != teams[b].queuePosition
    {
      assert PositionMatches(pos, queue, a) && PositionMatches(pos, queue, b);
    }
  }

  lemma UpdateKeepsTeamsValid(teams: map<TeamId, Team>, id: TeamId, t: Team)
    requires TeamsValid(teams) && t.teamId == id && TeamValid(t)
    ensures TeamsValid(teams[id := t])
  {
    var teams' := teams[id := t];
    forall x ensures TeamValidAt(teams', x) {
      assert TeamValidAt(teams, x);
    }
  }

  lemma PositionsUpdate(teams: map<TeamId, Team>, id: TeamId, t: Team)
    ensures Positions(teams[id := t]) == Positions(teams)[id := t.queuePosition]
  {
  }

  lemma InsertKeepsQueueMatches(pos: map<TeamId, Option<nat>>, queue: seq<QueueEntry>, id: TeamId)
    requires QueueMatches(pos, queue) && id !in pos
    ensures QueueMatches(pos[id := None], queue)
  {
    var pos' := pos[id := None];
    forall i ensures EntryMatches(pos', queue, i) {
      assert EntryMatches(pos, queue, i);
    }
    forall x ensures PositionMatches(pos', queue, x) {
      assert PositionMatches(pos, queue, x);
    }
  }

  lemma AppendKeepsQueueMatches(pos: map<TeamId, Option<nat>>, queue: seq<QueueEntry>, id: TeamId)
    requires QueueMatches(pos, queue) && id in pos && pos[id].None?
    ensures QueueMatches(pos[id := Some(|queue|)], queue + [QueueEntry(id, |queue|, true)])
  {
    var pos' := pos[id := Some(|queue|)];
    var queue' := queue + [QueueEntry(id, |queue|, true)];
    forall i ensures EntryMatches(pos', queue', i) {
      assert EntryMatches(pos, queue, i);
      if 0 <= i < |queue| {
        assert queue'[i] == queue[i];
        assert PositionMatches(pos, queue, id);
      }
    }
    forall x ensures PositionMatches(pos', queue', x) {
      assert PositionMatches(pos, queue, x);
      if x != id && x in pos && pos[x].Some? {
        assert queue'[pos[x].value] == queue[pos[x].value];
      }
    }
  }

  /** Replacing a team by a valid record with the same id and position keeps the store valid. */
  lemma UpdateKeepsStoreValid(teams: map<TeamId, Team>, queue: seq<QueueEntry>, id: TeamId, t: Team)
    requires StoreValid(teams, queue)
    requires id in teams && t.teamId == id && TeamValid(t)
    requires t.queuePosition == teams[id].queuePosition
    ensures StoreValid(teams[id := t], queue)
  {
    UpdateKeepsTeamsValid(teams, id, t);
    PositionsUpdate(teams, id, t);
    assert Positions(teams)[id := t.queuePosition] == Positions(teams);
  }

  /** Adding a new unassigned valid team keeps the store valid. */
  lemma InsertKeepsStoreValid(teams: map<TeamId, Team>, queue: seq<QueueEntry>, id: TeamId, t: Team)
    requires StoreValid(teams, queue)
    requires id !in teams && t.teamId == id && TeamValid(t) && t.queuePosition.None?
    ensures StoreValid(teams[id := t], queue)
  {
    UpdateKeepsTeamsValid(teams, id, t);
    PositionsUpdate(teams, id, t);
    InsertKeepsQueueMatches(Positions(teams), queue, id);
  }

  /** Assigning an unassigned team the next position, and queueing it, keeps the store valid. */
  lemma AssignKeepsStoreValid(teams: map<TeamId, Team>, queue: seq<QueueEntry>, id: TeamId)
    requires StoreValid(teams, queue)
    requires id in teams && teams[id].queuePosition.None?
    ensures StoreValid(teams[id := Assigned(teams[id], |queue|)], queue + [QueueEntry(id, |queue|, true)])
  {
    StoredTeamValid(teams, queue, id);
    var t := Assigned(teams[id], |queue|);
    AssignKeepsTeamValid(teams[id], |queue|);
    UpdateKeepsTeamsValid(teams, id, t);
    PositionsUpdate(teams, id, t);
    AppendKeepsQueueMatches(Positions(teams), queue, id);
  }

  /** Each gameplay transition, applied to one stored team, keeps the store valid. */
  lemma EncryptKeepsStoreValid(teams: map<TeamId, Team>, queue: seq<QueueEntry>, id: TeamId, c: string, p: string)
    requires StoreValid(teams, queue) && id in teams
    ensures StoreValid(teams[id := Encrypted(teams[id], c, p)], queue)
  {
    StoredTeamValid(teams, queue, id);
    Round2KeepsTeamValid(teams[id], c, p, "", 0);
    UpdateKeepsStoreValid(teams, queue, id, Encrypted(teams[id], c, p));
  }

  lemma DecryptKeepsStoreValid(teams: map<TeamId, Team>, queue: seq<QueueEntry>, id: TeamId, v: string, now: int)
    requires StoreValid(teams, queue) && id in teams
    ensures StoreValid(teams[id := Decrypted(teams[id], v, now)], queue)
  {
    StoredTeamValid(teams, queue, id);
    Round2KeepsTeamValid(teams[id], "", "", v, now);
    UpdateKeepsStoreValid(teams, queue, id, Decrypted(teams[id], v, now));
  }

  lemma Round1KeepsStoreValid(teams: map<TeamId, Team>, queue: seq<QueueEntry>, id: TeamId,
                              sid: SocketId, key: KeyPayload, now: int)
    requires StoreValid(teams, queue) && id in teams
    ensures StoreValid(teams[id := Round1Submitted(teams[id], sid, key, now)], queue)
  {
    StoredTeamValid(teams, queue, id);
    Round1KeepsTeamValid(teams[id], sid, key, now);
    UpdateKeepsStoreValid(teams, queue, id, Round1Submitted(teams[id], sid, key, now));
  }

  lemma JoinKeepsStoreValid(teams: map<TeamId, Team>, queue: seq<QueueEntry>, id: TeamId, sid: SocketId, role: Role)
    requires StoreValid(teams, queue) && id in teams
    ensures StoreValid(teams[id := JoinedTeam(teams[id], sid, role)], queue)
    ensures JoinedTeam(teams[id], sid, role) == teams[id].(members := JoinedMembers(teams[id].members, sid, role))
  {
    StoredTeamValid(teams, queue, id);
    JoinKeepsTeamValid(teams[id], sid, role);
    UpdateKeepsStoreValid(teams, queue, id, JoinedTeam(teams[id], sid, role));
  }

  lemma DisconnectKeepsStoreValid(teams: map<TeamId, Team>, queue: seq<QueueEntry>, id: TeamId, sid: SocketId)
    requires StoreValid(teams, queue) && id in teams
    ensures StoreValid(teams[id := WentOffline(teams[id], sid)], queue)
  {
    StoredTeamValid(teams, queue, id);
    DisconnectShape(teams[id], sid);
    UpdateKeepsStoreValid(teams, queue, id, WentOffline(teams[id], sid));
  }

  /** The reset store: every team unassigned, the queue empty; nothing else about a team moves. */
  function ResetStore(teams: map<TeamId, Team>): (r: map<TeamId, Team>)
    ensures r.Keys == teams.Keys
    ensures forall id :: id in teams ==> r[id] == ResetPuzzle(teams[id])
  {
    map id | id in teams :: ResetPuzzle(teams[id])
  }

  lemma ResetKeepsStoreValid(teams: map<TeamId, Team>, queue: seq<QueueEntry>)
    requires StoreValid(teams, queue)
    ensures StoreValid(ResetStore(teams), [])
  {
    var r := ResetStore(teams);
    forall id ensures TeamValidAt(r, id) {
      assert TeamValidAt(teams, id);
      if id in teams {
        ResetKeepsTeamValid(teams[id]);
      }
    }
    forall id ensures PositionMatches(Positions(r), [], id) {
    }
  }

  // ---------------------------------------------------------------------
  // Messages

  /** One `team_state` per member, each with that member's own projection, in member order. */
  predicate IsStatePush(evs: seq<Event>, t: Team)
  {
    && |evs| == |t.members|
    && forall i :: 0 <= i < |evs| ==>
         evs[i] == Event(ToSocket(t.members[i].socketId), TeamState(BuildTeamState(t, Some(t.members[i]))))
  }

  /** `team.members.forEach(member => io.to(member.socketId).emit('team_state', ...))`. */
  method PushStates(t: Team) returns (out: seq<Event>)
    ensures IsStatePush(out, t)
  {
    out := [];
    var i := 0;
    while i < |t.members|
      invariant 0 <= i <= |t.members|
      invariant |out| == i
      invariant forall k :: 0 <= k < i ==>
        out[k] == Event(ToSocket(t.members[k].socketId), TeamState(BuildTeamState(t, Some(t.members[k]))))
    {
      var m := t.members[i];
      out := out + [Event(ToSocket(m.socketId), TeamState(BuildTeamState(t, Some(m))))];
      i := i + 1;
    }
  }

  /** Under the member invariant the Encrypt member's push carries only the number and the Decrypt member's only the value. */
  lemma PushedSecretsFollowRoles(evs: seq<Event>, t: Team, i: nat)
    requires IsStatePush(evs, t) && i < |evs|
    ensures evs[i].payload.TeamState?
    ensures evs[i].payload.view.assignedNumber.Present? <==> t.members[i].role == Encrypt
    ensures evs[i].payload.view.encryptionValue.Present? <==> t.members[i].role == Decrypt
    ensures evs[i].to == ToSocket(t.members[i].socketId)
  {
  }

  /**
   * The messages of a successful `join_team`: the caller's own projection,
   * then the join announced to the rest of the room.  The room-wide
   * projection sent when round 0 advances never arises, since no valid
   * record is in round 0.
   */
  function JoinEvents(t: Team, sid: SocketId): seq<Event>
  {
    [Event(ToSocket(sid), TeamState(BuildTeamState(t, MemberOf(t.members, sid)))),
     Event(ToRoomExcept(t.teamId, sid), TeammateJoined(sid, |t.members|))]
  }

  /** The body of `GET /api/team/:teamId` for a caller whose token carries no socket. */
  function ResponseOf(t: Team): TeamResponse
  {
    TeamResponse(t.teamId, t.teamName, t.ciphertext, t.assignedNumber, t.encryptionValue,
                 t.resubmissions, t.completionTime, BuildTeamState(t, None))
  }

  /**
   * The REST team body gives an assigned team both secrets at the top level,
   * while its projection, built for no member, carries neither.
   */
  lemma ResponseCarriesBothSecrets(t: Team)
    requires PuzzleConsistent(t) && t.queuePosition.Some?
    ensures ResponseOf(t).assignedNumber.Some? && ResponseOf(t).encryptionValue.Some?
    ensures ResponseOf(t).state.assignedNumber.Absent? && ResponseOf(t).state.encryptionValue.Absent?
    ensures ResponseOf(t).state.role.None?
  {
  }

  // ---------------------------------------------------------------------
  // Index helpers on one member list

  function SocketIndex(ms: seq<Member>, sid: SocketId): (r: Option<nat>)
    ensures r.Some? ==> r.value < |ms| && ms[r.value].socketId == sid
    ensures r.None? <==> !Seated(ms, sid)
  {
    if ms == [] then None
    else if ms[0].socketId == sid then Some(0)
    else
      var r := SocketIndex(ms[1..], sid);
      assert Seated(ms, sid) ==> Seated(ms[1..], sid) by {
        if Seated(ms, sid) {
          var i :| 0 <= i < |ms| && ms[i].socketId == sid;
          assert ms[1..][i - 1] == ms[i];
        }
      }
      if r.Some? then Some(r.value + 1) else None
  }

  function RoleIndex(ms: seq<Member>, role: Role): (r: Option<nat>)
    ensures r.Some? ==> r.value < |ms| && ms[r.value].role == role
    ensures r.None? <==> !RoleHeld(ms, role)
  {
    if ms == [] then None
    else if ms[0].role == role then Some(0)
    else
      var r := RoleIndex(ms[1..], role);
      assert RoleHeld(ms, role) ==> RoleHeld(ms[1..], role) by {
        if RoleHeld(ms, role) {
          var i :| 0 <= i < |ms| && ms[i].role == role;
          assert ms[1..][i - 1] == ms[i];
        }
      }
      if r.Some? then Some(r.value + 1) else None
  }

  lemma ReseatAt(ms: seq<Member>, k: nat, role: Role, sid: SocketId)
    requires MembersValid(ms) && k < |ms| && ms[k].role == role
    ensures ms[k := ms[k].(socketId := sid, online := true)] == HandSeat(ms, role, sid)
  {
  }

  lemma OnlineAt(ms: seq<Member>, k: nat, sid: SocketId, on: bool)
    requires MembersValid(ms) && k < |ms| && ms[k].socketId == sid
    ensures ms[k := ms[k].(online := on)] == SetOnline(ms, sid, on)
  {
  }

  lemma OnlineAbsent(ms: seq<Member>, sid: SocketId, on: bool)
    requires !Seated(ms, sid)
    ensures SetOnline(ms, sid, on) == ms
  {
  }

  /**
   * The store, queue, connections and messages after `join_team` with a
   * valid role: the socket is filed under the team; an unknown team is
   * created with the caller alone and assigned the next position; a known
   * team has the caller seated; the caller gets its projection and the rest
   * of the room hears of the join.
   */
  ghost predicate JoinedAs(teams0: map<TeamId, Team>, queue0: seq<QueueEntry>, conns0: map<SocketId, TeamId>,
                           teams: map<TeamId, Team>, queue: seq<QueueEntry>, conns: map<SocketId, TeamId>,
                           sid: SocketId, teamId: TeamId, teamName: string, r: Role, now: int, out: seq<Event>)
  {
    if teamId !in teams0 && !Creatable(teamId, teamName) then
      && teams == teams0 && queue == queue0 && conns == conns0
      && out == [Event(ToSocket(sid), Error(JoinFailed))]
    else
    && teamId in teams
    && conns == conns0[sid := teamId]
    && (teamId !in teams0 ==>
          && teams == teams0[teamId := Assigned(NewTeam(teamId, teamName, [Member(sid, r, true)], now), |queue0|)]
          && queue == queue0 + [QueueEntry(teamId, |queue0|, true)])
    && (teamId in teams0 ==>
          && teams == teams0[teamId := JoinedTeam(teams0[teamId], sid, r)]
          && queue == queue0)
    && out == JoinEvents(teams[teamId], sid)
  }

  // ---------------------------------------------------------------------
  // The coordinator

  class Coordinator {
    var teams: map<TeamId, Team>
    var queue: seq<QueueEntry>
    var connections: map<SocketId, TeamId>

    ghost predicate Valid()
      reads this
    {
      StoreValid(teams, queue)
    }

    constructor ()
      ensures Valid()
      ensures teams == map[] && queue == [] && connections == map[]
    {
      teams := map[];
      queue := [];
      connections := map[];
    }

    /** `assignTeamFromQueue`: the next position's puzzle is written to the team and queued. */
    method AssignTeamFromQueue(teamId: TeamId) returns (assignment: TableEntry)
      requires Valid() && teamId in teams && teams[teamId].queuePosition.None?
      modifies this
      ensures Valid()
      ensures assignment == GetAssignmentFromLookup(|old(queue)|)
      ensures teams == old(teams)[teamId := Assigned(old(teams)[teamId], |old(queue)|)]
      ensures queue == old(queue) + [QueueEntry(teamId, |old(queue)|, true)]
      ensures connections == old(connections)
    {
      MatchesWellFormed(Positions(teams), queue);
      CompletedCountIsLength(queue);
      var nextPosition := CompletedCount(queue);
      assignment := GetAssignmentFromLookup(nextPosition);
      var assignedNumber := GetAssignedNumberFromQueue(nextPosition);
      var key8bit := assignment.key + KeySuffix;
      var key8bitDecimal := ParseInt2(key8bit);
      var xorValue := if key8bitDecimal.None? then None else Some(Xor(assignedNumber, key8bitDecimal.value));
      AssignKeepsStoreValid(teams, queue, teamId);
      teams := teams[teamId := teams[teamId].(
        switchValues := Stored(assignment.switches), key4bit := Some(assignment.key), key8bit := key8bit,
        queuePosition := Some(nextPosition), assignedNumber := Some(assignedNumber),
        xorValue := xorValue, encryptionValue := xorValue)];
      queue := queue + [QueueEntry(teamId, nextPosition, true)];
    }

    /** `POST /api/auth/login`: both fields must be non-empty; a missing team is created unassigned. */
    method Login(teamId: TeamId, teamName: string, now: int) returns (r: Reply<LoginBody>)
      requires Valid()
      modifies this
      ensures Valid()
      ensures (teamId == "" || teamName == "") ==>
        r == Failure(400, MissingFields) && teams == old(teams)
      ensures teamId != "" && teamName != "" ==>
        && r == Ok(LoginBody(teamId, teamName))
        && teams == (if teamId in old(teams) then old(teams) else old(teams)[teamId := NewTeam(teamId, teamName, [], now)])
      ensures queue == old(queue) && connections == old(connections)
    {
      if teamId == "" || teamName == "" {
        return Failure(400, MissingFields);
      }
      if teamId !in teams {
        var team := NewTeam(teamId, teamName, [], now);
        NewTeamDefaults(teamId, teamName, [], now);
        InsertKeepsStoreValid(teams, queue, teamId, team);
        teams := teams[teamId := team];
      }
      r := Ok(LoginBody(teamId, teamName));
    }

    /**
     * `join_team`: an unknown role is refused; otherwise the caller joins
     * under the normalised role as JoinAs describes.
     */
    method JoinTeam(sid: SocketId, teamId: TeamId, teamName: string, role: Option<string>, now: int)
      returns (out: seq<Event>)
      requires Valid()
      modifies this
      ensures Valid()
      ensures NormalizeRole(role).None? ==>
        && out == [Event(ToSocket(sid), Error(InvalidRole))]
        && teams == old(teams) && queue == old(queue) && connections == old(connections)
      ensures NormalizeRole(role).Some? ==> JoinedAs(old(teams), old(queue), old(connections), teams, queue, connections,
                                                     sid, teamId, teamName, NormalizeRole(role).value, now, out)
    {
      var desiredRole := NormalizeRole(role);
      if desiredRole.None? {
        return [Event(ToSocket(sid), Error(InvalidRole))];
      }
      out := JoinAs(sid, teamId, teamName, desiredRole.value, now);
    }

    /**
     * `join_team` with a valid role: an unknown team is created with this
     * socket as its only member and assigned the next position; a known
     * team has the caller seated as Session.JoinedMembers describes.  The
     * round-0 advance never fires on a valid store.
     */
    method JoinAs(sid: SocketId, teamId: TeamId, teamName: string, r: Role, now: int)
      returns (out: seq<Event>)
      requires Valid()
      modifies this
      ensures Valid()
      ensures JoinedAs(old(teams), old(queue), old(connections), teams, queue, connections, sid, teamId, teamName, r, now, out)
    {
      var team: Team;
      if teamId !in teams {
        var created := CreateTeam(sid, teamId, teamName, r, now);
        if !created {
          return [Event(ToSocket(sid), Error(JoinFailed))];
        }
        team := teams[teamId];
      } else {
        team := teams[teamId];
        StoredTeamValid(teams, queue, teamId);
        var ms := JoinInPlace(team.members, sid, r);
        JoinKeepsStoreValid(teams, queue, teamId, sid, r);
        team := team.(members := ms);
        teams := teams[teamId := team];
      }
      var currentMember := MemberOf(team.members, sid);
      if OnlineCount(team.members) == 2 && team.round == 0 {
        // the round-0 advance and its room broadcast: a valid record is in round 1 or 2
        assert false;
      }
      connections := connections[sid := teamId];
      out := [Event(ToSocket(sid), TeamState(BuildTeamState(team, currentMember))),
              Event(ToRoomExcept(teamId, sid), TeammateJoined(sid, |team.members|))];
    }

    /**
     * A team unknown to `join_team` is created with the caller as its only
     * member, then assigned.  Without a team id or name the save fails: no
     * team is created and no position is used.
     */
    method CreateTeam(sid: SocketId, teamId: TeamId, teamName: string, r: Role, now: int) returns (created: bool)
      requires Valid() && teamId !in teams
      modifies this
      ensures Valid()
      ensures created <==> Creatable(teamId, teamName)
      ensures !created ==> teams == old(teams) && queue == old(queue)
      ensures created ==>
        && teams == old(teams)[teamId := Assigned(NewTeam(teamId, teamName, [Member(sid, r, true)], now), |old(queue)|)]
        && queue == old(queue) + [QueueEntry(teamId, |old(queue)|, true)]
      ensures connections == old(connections)
    {
      if !Creatable(teamId, teamName) {
        return false;
      }
      created := true;
      var team := NewTeam(teamId, teamName, [Member(sid, r, true)], now);
      NewTeamDefaults(teamId, teamName, [Member(sid, r, true)], now);
      InsertKeepsStoreValid(teams, queue, teamId, team);
      teams := teams[teamId := team];
      var _ := AssignTeamFromQueue(teamId);
    }

    /**
     * `submit_round1_key`: the record changes as Session.Round1Submitted says;
     * the submitter is told of a wrong key or of waiting, and on completion the
     * room gets the expanded key and every member its own projection.
     */
    method SubmitRound1Key(sid: SocketId, teamId: TeamId, key: KeyPayload, now: int) returns (out: seq<Event>)
      requires Valid()
      modifies this
      ensures Valid()
      ensures queue == old(queue) && connections == old(connections)
      ensures teamId !in old(teams) ==> out == [Event(ToSocket(sid), Error(TeamNotFound))] && teams == old(teams)
      ensures teamId in old(teams) ==>
        var before := old(teams)[teamId];
        var after := Round1Submitted(before, sid, key, now);
        var subs := Upsert(before.round1Submissions, Submission(sid, key, now));
        && teams == old(teams)[teamId := after]
        && (GetCorrectKeyFromSwitches(before.switchValues) != key ==>
              out == [Event(ToSocket(sid), Round1Result(false, WrongKey, None, None))])
        && (GetCorrectKeyFromSwitches(before.switchValues) == key && |subs| != 2 ==>
              out == [Event(ToSocket(sid), Round1Result(true, KeyVerified, Some(true), None))])
        && (GetCorrectKeyFromSwitches(before.switchValues) == key && |subs| == 2 ==>
              && |out| >= 1
              && out[0] == Event(ToRoom(teamId), Round1Result(true, Round1Done, None, Some(KeyText(key) + KeySuffix)))
              && IsStatePush(out[1..], after))
    {
      if teamId !in teams {
        return [Event(ToSocket(sid), Error(TeamNotFound))];
      }
      var team := teams[teamId];
      var correctKey := GetCorrectKeyFromSwitches(team.switchValues);
      if correctKey != key {
        out := RejectRound1Key(sid, teamId, key, now);
      } else {
        out := AcceptRound1Key(sid, teamId, key, now);
      }
    }

    /** The wrong-key branch of `submit_round1_key`: only the resubmission count moves. */
    method RejectRound1Key(sid: SocketId, teamId: TeamId, key: KeyPayload, now: int) returns (out: seq<Event>)
      requires Valid() && teamId in teams
      requires GetCorrectKeyFromSwitches(teams[teamId].switchValues) != key
      modifies this
      ensures Valid()
      ensures queue == old(queue) && connections == old(connections)
      ensures teams == old(teams)[teamId := Round1Submitted(old(teams)[teamId], sid, key, now)]
      ensures out == [Event(ToSocket(sid), Round1Result(false, WrongKey, None, None))]
    {
      var team := teams[teamId];
      Round1KeepsStoreValid(teams, queue, teamId, sid, key, now);
      assert team.(resubmissions := team.resubmissions + 1) == Round1Submitted(team, sid, key, now);
      team := team.(resubmissions := team.resubmissions + 1);
      teams := teams[teamId := team];
      out := [Event(ToSocket(sid), Round1Result(false, WrongKey, None, None))];
    }

    /**
     * The correct-key branch of `submit_round1_key`: the socket's submission
     * is upserted; with two submissions round 1 completes, the room gets the
     * expanded key and every member its projection; otherwise the submitter
     * is told to wait for the teammate.
     */
    method AcceptRound1Key(sid: SocketId, teamId: TeamId, key: KeyPayload, now: int) returns (out: seq<Event>)
      requires Valid() && teamId in teams
      requires GetCorrectKeyFromSwitches(teams[teamId].switchValues) == key
      modifies this
      ensures Valid()
      ensures queue == old(queue) && connections == old(connections)
      ensures var before := old(teams)[teamId];
        var after := Round1Submitted(before, sid, key, now);
        var subs := Upsert(before.round1Submissions, Submission(sid, key, now));
        && teams == old(teams)[teamId := after]
        && (|subs| != 2 ==> out == [Event(ToSocket(sid), Round1Result(true, KeyVerified, Some(true), None))])
        && (|subs| == 2 ==>
              && |out| >= 1
              && out[0] == Event(ToRoom(teamId), Round1Result(true, Round1Done, None, Some(KeyText(key) + KeySuffix)))
              && IsStatePush(out[1..], after))
    {
      var team := teams[teamId];
      Round1KeepsStoreValid(teams, queue, teamId, sid, key, now);
      StoredTeamValid(teams, queue, teamId);
      var subs := UpsertInPlace(team.round1Submissions, sid, key, now);
      team := team.(round1Submissions := subs);
      if |subs| == 2 {
        team := team.(key4bit := key, key8bit := KeyText(key) + KeySuffix, round1Complete := true, round := 2);
        teams := teams[teamId := team];
        var pushes := PushStates(team);
        out := [Event(ToRoom(teamId), Round1Result(true, Round1Done, None, Some(team.key8bit)))] + pushes;
        assert out[1..] == pushes;
      } else {
        teams := teams[teamId := team];
        out := [Event(ToSocket(sid), Round1Result(true, KeyVerified, Some(true), None))];
      }
    }

    /** `submit_encryption`: only the encrypting member may store the ciphertext and plaintext. */
    method SubmitEncryption(sid: SocketId, teamId: TeamId, ciphertext: string, plaintext: string)
      returns (out: seq<Event>)
      requires Valid()
      modifies this
      ensures Valid()
      ensures queue == old(queue) && connections == old(connections)
      ensures teamId !in old(teams) ==> out == [Event(ToSocket(sid), Error(TeamNotFound))] && teams == old(teams)
      ensures teamId in old(teams) && !HoldsRole(old(teams)[teamId], sid, Encrypt) ==>
        out == [Event(ToSocket(sid), Error(NotEncrypter))] && teams == old(teams)
      ensures teamId in old(teams) && HoldsRole(old(teams)[teamId], sid, Encrypt) ==>
        && teams == old(teams)[teamId := Encrypted(old(teams)[teamId], ciphertext, plaintext)]
        && out == [Event(ToSocket(sid), EncryptionResult(true, Transmitted)),
                   Event(ToRoomExcept(teamId, sid), CiphertextReceived(ciphertext))]
    {
      if teamId !in teams {
        return [Event(ToSocket(sid), Error(TeamNotFound))];
      }
      var team := teams[teamId];
      var member := MemberOf(team.members, sid);
      if member.None? || member.value.role != Encrypt {
        return [Event(ToSocket(sid), Error(NotEncrypter))];
      }
      EncryptKeepsStoreValid(teams, queue, teamId, ciphertext, plaintext);
      team := team.(ciphertext := ciphertext, plaintextDecimal := plaintext);
      teams := teams[teamId := team];
      out := [Event(ToSocket(sid), EncryptionResult(true, Transmitted)),
              Event(ToRoomExcept(teamId, sid), CiphertextReceived(ciphertext))];
    }

    /**
     * `submit_decryption`: only the decrypting member may submit; a match
     * completes round 2, reports the elapsed time to the submitter and the
     * room, and pushes each member its projection; a mismatch counts a
     * resubmission.
     */
    method SubmitDecryption(sid: SocketId, teamId: TeamId, decryptedValue: string, now: int)
      returns (out: seq<Event>)
      requires Valid()
      modifies this
      ensures Valid()
      ensures queue == old(queue) && connections == old(connections)
      ensures teamId !in old(teams) ==> out == [Event(ToSocket(sid), Error(TeamNotFound))] && teams == old(teams)
      ensures teamId in old(teams) && !HoldsRole(old(teams)[teamId], sid, Decrypt) ==>
        out == [Event(ToSocket(sid), Error(NotDecrypter))] && teams == old(teams)
      ensures teamId in old(teams) && HoldsRole(old(teams)[teamId], sid, Decrypt) ==>
        var before := old(teams)[teamId];
        var after := Decrypted(before, decryptedValue, now);
        var elapsed := now - before.startTime;
        && teams == old(teams)[teamId := after]
        && (decryptedValue != before.plaintextDecimal ==>
              out == [Event(ToSocket(sid), DecryptionResult(false, WrongDecryption, None, None))])
        && (decryptedValue == before.plaintextDecimal ==>
              && |out| >= 2
              && out[0] == Event(ToSocket(sid), DecryptionResult(true, Round2Done, Some(elapsed), Some(before.resubmissions)))
              && out[1] == Event(ToRoom(teamId), CompetitionComplete(elapsed, before.resubmissions))
              && IsStatePush(out[2..], after))
    {
      if teamId !in teams {
        return [Event(ToSocket(sid), Error(TeamNotFound))];
      }
      var team := teams[teamId];
      var member := MemberOf(team.members, sid);
      if member.None? || member.value.role != Decrypt {
        return [Event(ToSocket(sid), Error(NotDecrypter))];
      }
      if decryptedValue == team.plaintextDecimal {
        out := CompleteRound2(sid, teamId, now);
      } else {
        DecryptKeepsStoreValid(teams, queue, teamId, decryptedValue, now);
        team := team.(resubmissions := team.resubmissions + 1);
        teams := teams[teamId := team];
        out := [Event(ToSocket(sid), DecryptionResult(false, WrongDecryption, None, None))];
      }
    }

    /**
     * The matching branch of `submit_decryption`: round 2 is completed now;
     * the submitter gets the elapsed time and count of resubmissions, the
     * room the competition result, and every member its projection.
     */
    method CompleteRound2(sid: SocketId, teamId: TeamId, now: int) returns (out: seq<Event>)
      requires Valid() && teamId in teams
      modifies this
      ensures Valid()
      ensures queue == old(queue) && connections == old(connections)
      ensures var before := old(teams)[teamId];
        var after := Decrypted(before, before.plaintextDecimal, now);
        var elapsed := now - before.startTime;
        && teams == old(teams)[teamId := after]
        && |out| >= 2
        && out[0] == Event(ToSocket(sid), DecryptionResult(true, Round2Done, Some(elapsed), Some(before.resubmissions)))
        && out[1] == Event(ToRoom(teamId), CompetitionComplete(elapsed, before.resubmissions))
        && IsStatePush(out[2..], after)
    {
      var team := teams[teamId];
      DecryptKeepsStoreValid(teams, queue, teamId, team.plaintextDecimal, now);
      team := team.(round2Complete := true, completionTime := Some(now));
      var timeElapsed := now - team.startTime;
      teams := teams[teamId := team];
      var updatedTeam := teams[teamId];
      var pushes := PushStates(updatedTeam);
      out := [Event(ToSocket(sid), DecryptionResult(true, Round2Done, Some(timeElapsed), Some(team.resubmissions))),
              Event(ToRoom(teamId), CompetitionComplete(timeElapsed, team.resubmissions))] + pushes;
      assert out[2..] == pushes;
    }

    /**
     * `disconnect`: the socket's member in its team goes offline and the rest
     * of the room is told how many are still online; the socket is forgotten.
     */
    method Disconnect(sid: SocketId) returns (out: seq<Event>)
      requires Valid()
      modifies this
      ensures Valid()
      ensures queue == old(queue)
      ensures connections == old(connections) - {sid}
      ensures sid in old(connections) && old(connections)[sid] in old(teams) ==>
        var id := old(connections)[sid];
        && teams == old(teams)[id := WentOffline(old(teams)[id], sid)]
        && out == [Event(ToRoomExcept(id, sid), TeammateLeft(sid, OnlineCount(teams[id].members)))]
      ensures !(sid in old(connections) && old(connections)[sid] in old(teams)) ==>
        teams == old(teams) && out == []
    {
      out := [];
      if sid in connections && connections[sid] in teams {
        var id := connections[sid];
        var team := teams[id];
        DisconnectKeepsStoreValid(teams, queue, id, sid);
        StoredTeamValid(teams, queue, id);
        var idx := SocketIndex(team.members, sid);
        if idx.Some? {
          OnlineAt(team.members, idx.value, sid, false);
          team := team.(members := team.members[idx.value := team.members[idx.value].(online := false)]);
        } else {
          OnlineAbsent(team.members, sid, false);
        }
        teams := teams[id := team];
        out := [Event(ToRoomExcept(id, sid), TeammateLeft(sid, OnlineCount(team.members)))];
      }
      connections := connections - {sid};
    }

    /**
     * `GET /api/team/:teamId` for a token of team `tokenTeamId`: another
     * team's id is refused, an unknown one is not found, and a team with a
     * null switch is assigned on the spot before it is returned.
     */
    method FetchTeam(tokenTeamId: TeamId, teamId: TeamId) returns (r: Reply<TeamResponse>)
      requires Valid()
      modifies this
      ensures Valid()
      ensures connections == old(connections)
      ensures teamId != tokenTeamId ==>
        r == Failure(403, OtherTeam)
        && teams == old(teams) && queue == old(queue)
      ensures teamId == tokenTeamId && teamId !in old(teams) ==>
        r == Failure(404, TeamNotFound) && teams == old(teams) && queue == old(queue)
      ensures teamId == tokenTeamId && teamId in old(teams) ==>
        && (old(teams)[teamId].queuePosition.None? ==>
              && teams == old(teams)[teamId := Assigned(old(teams)[teamId], |old(queue)|)]
              && queue == old(queue) + [QueueEntry(teamId, |old(queue)|, true)])
        && (old(teams)[teamId].queuePosition.Some? ==> teams == old(teams) && queue == old(queue))
        && teamId in teams && teams[teamId].queuePosition.Some?
        && r == Ok(ResponseOf(teams[teamId]))
    {
      if teamId != tokenTeamId {
        return Failure(403, OtherTeam);
      }
      if teamId !in teams {
        return Failure(404, TeamNotFound);
      }
      var team := teams[teamId];
      StoredTeamValid(teams, queue, teamId);
      UnsetIffUnassigned(team);
      if AnyUnset(team.switchValues) {
        var _ := AssignTeamFromQueue(team.teamId);
        team := teams[teamId];
      }
      r := Ok(ResponseOf(team));
    }

    /** `POST /api/queue/assign/:teamId`: assign a team whose S0 is still null. */
    method ForceAssign(teamId: TeamId) returns (r: Reply<TableEntry>)
      requires Valid()
      modifies this
      ensures Valid()
      ensures connections == old(connections)
      ensures teamId !in old(teams) ==> r == Failure(404, TeamNotFound) && teams == old(teams) && queue == old(queue)
      ensures teamId in old(teams) && old(teams)[teamId].queuePosition.Some? ==>
        r == Failure(400, AlreadyAssigned) && teams == old(teams) && queue == old(queue)
      ensures teamId in old(teams) && old(teams)[teamId].queuePosition.None? ==>
        && r == Ok(GetAssignmentFromLookup(|old(queue)|))
        && teams == old(teams)[teamId := Assigned(old(teams)[teamId], |old(queue)|)]
        && queue == old(queue) + [QueueEntry(teamId, |old(queue)|, true)]
    {
      if teamId !in teams {
        return Failure(404, TeamNotFound);
      }
      StoredTeamValid(teams, queue, teamId);
      UnsetIffUnassigned(teams[teamId]);
      if teams[teamId].switchValues.s0.Some? {
        return Failure(400, AlreadyAssigned);
      }
      var assignment := AssignTeamFromQueue(teamId);
      r := Ok(assignment);
    }

    /** `POST /api/queue/reset`: empty the queue and clear every team's puzzle. */
    method ResetQueue()
      requires Valid()
      modifies this
      ensures Valid()
      ensures queue == [] && teams == ResetStore(old(teams)) && connections == old(connections)
    {
      ResetKeepsStoreValid(teams, queue);
      queue := [];
      teams := ResetStore(teams);
    }
  }

  /** `round1Submissions.findIndex(s => s.socketId === sid)`, as an option. */
  function SubmissionIndex(subs: seq<Submission>, sid: SocketId): (r: Option<nat>)
    ensures r.Some? ==> r.value < |subs| && subs[r.value].socketId == sid
    ensures r.None? <==> !Submitted(subs, sid)
  {
    if subs == [] then None
    else if subs[0].socketId == sid then Some(0)
    else
      var r := SubmissionIndex(subs[1..], sid);
      assert Submitted(subs, sid) ==> Submitted(subs[1..], sid) by {
        if Submitted(subs, sid) {
          var i :| 0 <= i < |subs| && subs[i].socketId == sid;
          assert subs[1..][i - 1] == subs[i];
        }
      }
      if r.Some? then Some(r.value + 1) else None
  }

  /**
   * The membership update of `join_team` on an existing team, in the
   * source's branch order; it agrees with Session.JoinedMembers.
   */
  method JoinInPlace(members: seq<Member>, sid: SocketId, r: Role) returns (ms: seq<Member>)
    requires MembersValid(members)
    ensures ms == JoinedMembers(members, sid, r)
  {
    ms := members;
    var memberExists := SocketIndex(ms, sid);
    var roleMember := RoleIndex(ms, r);
    if memberExists.None? && |ms| < 2 {
      if roleMember.Some? {
        ReseatAt(ms, roleMember.value, r, sid);
        ms := ms[roleMember.value := ms[roleMember.value].(socketId := sid, online := true)];
      } else {
        ms := ms + [Member(sid, r, true)];
      }
    } else if memberExists.Some? {
      OnlineAt(ms, memberExists.value, sid, true);
      ms := ms[memberExists.value := ms[memberExists.value].(online := true)];
    } else if roleMember.Some? {
      ReseatAt(ms, roleMember.value, r, sid);
      ms := ms[roleMember.value := ms[roleMember.value].(socketId := sid, online := true)];
    }
  }

  /**
   * The submission upsert of `submit_round1_key`: overwrite this socket's
   * entry found by `findIndex`, or push a new one; it agrees with Session.Upsert.
   */
  method UpsertInPlace(subs: seq<Submission>, sid: SocketId, key: KeyPayload, now: int) returns (r: seq<Submission>)
    requires SubmissionsDistinct(subs)
    ensures r == Upsert(subs, Submission(sid, key, now))
  {
    var existingIndex := SubmissionIndex(subs, sid);
    if existingIndex.Some? {
      r := subs[existingIndex.value := subs[existingIndex.value].(key := key, submittedAt := now)];
    } else {
      r := subs + [Submission(sid, key, now)];
    }
  }
}
