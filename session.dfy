/**
 * The per-team state of the session coordinator and its transitions, as
 * values: the Team record with its schema defaults, role normalisation, the
 * role-filtered projection sent to each member, and one function per
 * gameplay event stating what that event does to the record.  The server
 * class applies these to its store.
 */
module Session {
  import opened Wrappers
  import opened Bits
  import opened JsText
  import opened Puzzle

  type SocketId = string
  type TeamId = string

  datatype Role = Encrypt | Decrypt

  function RoleName(r: Role): string
  {
    match r
    case Encrypt => "encrypt"
    case Decrypt => "decrypt"
  }

  /**
   * `normalizeRole`: the trimmed, lower-cased role if it is one of the two
   * role names.  `None` as input stands for a payload that is not a string.
   */
  function NormalizeRole(role: Option<string>): (r: Option<Role>)
    ensures r.Some? ==> role.Some? && ToLower(Trim(role.value)) == RoleName(r.value)
    ensures role.Some? && (exists q :: ToLower(Trim(role.value)) == RoleName(q)) ==> r.Some?
  {
    if role.None? then None
    else
      var n := ToLower(Trim(role.value));
      if n == "encrypt" then Some(Encrypt)
      else if n == "decrypt" then Some(Decrypt)
      else None
  }

  /**
   * Any spelling of a role name in any letter case, surrounded by any
   * whitespace, is accepted as that role.
   */
  lemma NormalizeAcceptsPadded(w1: string, spelled: string, w2: string, q: Role)
    requires AllWhitespace(w1) && AllWhitespace(w2)
    requires ToLower(spelled) == RoleName(q)
    ensures NormalizeRole(Some(w1 + spelled + w2)) == Some(q)
  {
    assert spelled != [];
    assert LowerChar(spelled[0]) == RoleName(q)[0];
    assert LowerChar(spelled[|spelled| - 1]) == RoleName(q)[|spelled| - 1];
    TrimPadded(w1, spelled, w2);
  }

  datatype Member = Member(socketId: SocketId, role: Role, online: bool)

  /**
   * A round-1 key as the payload carries it: a string, or `None` for null.
   * Any other payload value is never equal to the expected key, so it is
   * judged like a wrong string.
   */
  type KeyPayload = Option<string>

  /** The text JavaScript's `key + '1000'` starts with: the string itself, or "null". */
  function KeyText(key: KeyPayload): string
  {
    if key.Some? then key.value else "null"
  }

  datatype Submission = Submission(socketId: SocketId, key: KeyPayload, submittedAt: int)

  /** The Team record; absent numbers and dates are `None` (null). */
  datatype Team = Team(
    teamId: TeamId,
    teamName: string,
    members: seq<Member>,
    registeredAt: int,
    queuePosition: Option<nat>,
    round: int,
    key4bit: Option<string>,
    key8bit: string,
    switchValues: Switches,
    round1Complete: bool,
    round1Submissions: seq<Submission>,
    round2Complete: bool,
    ciphertext: string,
    plaintextDecimal: string,
    assignedNumber: Option<nat>,
    xorValue: Option<nat>,
    encryptionValue: Option<nat>,
    startTime: int,
    completionTime: Option<int>,
    resubmissions: nat)

  /** A new record with every field the creator does not give at its schema default. */
  function NewTeam(teamId: TeamId, teamName: string, members: seq<Member>, now: int): Team
  {
    Team(teamId, teamName, members, now, None, 1, Some(""), "", UnsetSwitches, false, [], false,
         "", "", None, None, None, now, None, 0)
  }

  // ---------------------------------------------------------------------
  // Invariants of one team

  predicate MembersValid(ms: seq<Member>)
  {
    && |ms| <= 2
    && (forall i, j :: 0 <= i < j < |ms| ==> ms[i].role != ms[j].role)
    && (forall i, j :: 0 <= i < j < |ms| ==> ms[i].socketId != ms[j].socketId)
  }

  predicate SubmissionsDistinct(subs: seq<Submission>)
  {
    forall i, j :: 0 <= i < j < |subs| ==> subs[i].socketId != subs[j].socketId
  }

  /** The puzzle fields of a team assigned queue position p. */
  predicate IsAssignmentFor(t: Team, p: nat)
  {
    var e := GetAssignmentFromLookup(p);
    var n := GetAssignedNumberFromQueue(p);
    && t.switchValues == Stored(e.switches)
    && t.key4bit == Some(e.key)
    && t.key8bit == e.key + KeySuffix
    && t.assignedNumber == Some(n)
    && t.encryptionValue == Some(Xor(n, BinVal(t.key8bit)))
    && t.xorValue == t.encryptionValue
  }

  /**
   * Either no puzzle at all, or exactly the puzzle of the queue position
   * held.  An unassigned team's keys are left free: a null key completes
   * its round 1 and stores null and "null1000".
   */
  predicate PuzzleConsistent(t: Team)
  {
    match t.queuePosition
    case None =>
      && t.switchValues == UnsetSwitches
      && t.assignedNumber.None? && t.xorValue.None? && t.encryptionValue.None?
    case Some(p) => IsAssignmentFor(t, p)
  }

  predicate TeamValid(t: Team)
  {
    && MembersValid(t.members)
    && SubmissionsDistinct(t.round1Submissions)
    && (t.round == 1 || t.round == 2)
    && (t.round == 2 <==> t.round1Complete)
    && (t.round2Complete <==> t.completionTime.Some?)
    && PuzzleConsistent(t)
  }

  /** A fresh record is valid, in round 1, and has no key to find. */
  lemma NewTeamDefaults(teamId: TeamId, teamName: string, members: seq<Member>, now: int)
    requires MembersValid(members)
    ensures var t := NewTeam(teamId, teamName, members, now);
      && TeamValid(t) && t.round == 1 && !t.round1Complete && !t.round2Complete
      && GetCorrectKeyFromSwitches(t.switchValues).None?
      && t.key4bit == Some("") && t.key8bit == ""
      && t.resubmissions == 0 && t.ciphertext == "" && t.plaintextDecimal == ""
  {
  }

  // ---------------------------------------------------------------------
  // Membership

  predicate Seated(ms: seq<Member>, sid: SocketId)
  {
    exists i :: 0 <= i < |ms| && ms[i].socketId == sid
  }

  predicate RoleHeld(ms: seq<Member>, role: Role)
  {
    exists i :: 0 <= i < |ms| && ms[i].role == role
  }

  /** Every member on this socket gets its online flag set to `on`. */
  function SetOnline(ms: seq<Member>, sid: SocketId, on: bool): (r: seq<Member>)
    ensures |r| == |ms|
    ensures forall i :: 0 <= i < |ms| ==>
      r[i] == if ms[i].socketId == sid then ms[i].(online := on) else ms[i]
  {
    seq(|ms|, i requires 0 <= i < |ms| => if ms[i].socketId == sid then ms[i].(online := on) else ms[i])
  }

  /** The holder of `role` is moved to socket sid and marked online. */
  function HandSeat(ms: seq<Member>, role: Role, sid: SocketId): (r: seq<Member>)
    ensures |r| == |ms|
    ensures forall i :: 0 <= i < |ms| ==>
      r[i] == if ms[i].role == role then ms[i].(socketId := sid, online := true) else ms[i]
  {
    seq(|ms|, i requires 0 <= i < |ms| => if ms[i].role == role then ms[i].(socketId := sid, online := true) else ms[i])
  }

  /**
   * What `join_team` does to the members of an existing team: a seated
   * socket is only marked online; otherwise the holder of the requested role
   * is handed the new socket; otherwise, if there is room, a member is added.
   */
  function JoinedMembers(ms: seq<Member>, sid: SocketId, role: Role): (r: seq<Member>)
    ensures |ms| <= |r| <= |ms| + 1
    ensures |r| == |ms| + 1 ==> !Seated(ms, sid) && !RoleHeld(ms, role) && r[|ms|] == Member(sid, role, true)
  {
    if Seated(ms, sid) then SetOnline(ms, sid, true)
    else if RoleHeld(ms, role) then HandSeat(ms, role, sid)
    else if |ms| < 2 then ms + [Member(sid, role, true)]
    else ms
  }

  /** Join keeps at most two members, one per role, one per socket. */
  lemma JoinKeepsMembersValid(ms: seq<Member>, sid: SocketId, role: Role)
    requires MembersValid(ms)
    ensures MembersValid(JoinedMembers(ms, sid, role))
  {
    var r := JoinedMembers(ms, sid, role);
    if !Seated(ms, sid) && !RoleHeld(ms, role) && |ms| < 2 {
      assert r == ms + [Member(sid, role, true)];
      forall i, j | 0 <= i < j < |r| ensures r[i].role != r[j].role && r[i].socketId != r[j].socketId {
        if j == |ms| {
          assert r[i] == ms[i];
        }
      }
    }
  }

  /**
   * Join never removes a member and never changes a member's role; it adds
   * one only when the socket is new, the role is free and there is room.
   */
  lemma JoinShape(ms: seq<Member>, sid: SocketId, role: Role)
    ensures var r := JoinedMembers(ms, sid, role);
      && |r| >= |ms|
      && (forall i :: 0 <= i < |ms| ==> r[i].role == ms[i].role)
      && (|r| > |ms| <==> !Seated(ms, sid) && !RoleHeld(ms, role) && |ms| < 2)
      && (|r| > |ms| ==> r == ms + [Member(sid, role, true)])
  {
  }

  /** A socket already seated keeps its seat and only goes online. */
  lemma JoinWhenSeated(ms: seq<Member>, sid: SocketId, role: Role)
    requires Seated(ms, sid)
    ensures var r := JoinedMembers(ms, sid, role);
      && |r| == |ms|
      && (forall i :: 0 <= i < |ms| ==> r[i].socketId == ms[i].socketId && r[i].role == ms[i].role)
      && (forall i :: 0 <= i < |ms| ==> r[i].online == (ms[i].online || ms[i].socketId == sid))
  {
  }

  /**
   * After a join the caller is seated, and unless it was seated already it
   * holds the role it asked for; the team is never full without that role.
   */
  lemma JoinSeatsCaller(ms: seq<Member>, sid: SocketId, role: Role)
    requires MembersValid(ms)
    ensures Seated(JoinedMembers(ms, sid, role), sid)
    ensures !Seated(ms, sid) ==>
      exists i :: 0 <= i < |JoinedMembers(ms, sid, role)| &&
        JoinedMembers(ms, sid, role)[i] == Member(sid, role, true)
  {
    var r := JoinedMembers(ms, sid, role);
    if Seated(ms, sid) {
      var i :| 0 <= i < |ms| && ms[i].socketId == sid;
      assert r[i].socketId == sid;
    } else if RoleHeld(ms, role) {
      var i :| 0 <= i < |ms| && ms[i].role == role;
      assert r[i] == Member(sid, role, true);
    } else {
      if |ms| == 2 {
        FullTeamHoldsEveryRole(ms, role);
        assert false;
      }
      assert r[|ms|] == Member(sid, role, true);
    }
  }

  /** Two members with distinct roles hold both roles. */
  lemma FullTeamHoldsEveryRole(ms: seq<Member>, role: Role)
    requires MembersValid(ms) && |ms| == 2
    ensures RoleHeld(ms, role)
  {
    if ms[0].role != role {
      assert ms[1].role != ms[0].role;
      assert ms[1].role == role;
    }
  }

  function OnlineCount(ms: seq<Member>): (n: nat)
    ensures n <= |ms|
  {
    if ms == [] then 0 else (if ms[0].online then 1 else 0) + OnlineCount(ms[1..])
  }

  /** The one-time advance from round 0 once two members are online. */
  function AdvanceRound(t: Team): Team
  {
    if OnlineCount(t.members) == 2 && t.round == 0 then t.(round := 1) else t
  }

  /** `join_team` on an existing record: only the members and, from round 0, the round move. */
  function JoinedTeam(t: Team, sid: SocketId, role: Role): (r: Team)
    ensures r.(round := t.round) == t.(members := JoinedMembers(t.members, sid, role))
    ensures r.round == t.round || (t.round == 0 && r.round == 1)
  {
    AdvanceRound(t.(members := JoinedMembers(t.members, sid, role)))
  }

  /**
   * Join preserves validity and never moves the round: a valid record is in
   * round 1 or 2, so the round-0 advance cannot fire.
   */
  lemma JoinKeepsTeamValid(t: Team, sid: SocketId, role: Role)
    requires TeamValid(t)
    ensures TeamValid(JoinedTeam(t, sid, role))
    ensures JoinedTeam(t, sid, role) == t.(members := JoinedMembers(t.members, sid, role))
  {
    JoinKeepsMembersValid(t.members, sid, role);
  }

  // ---------------------------------------------------------------------
  // Assignment

  /** The record after `assignTeamFromQueue` hands it queue position p. */
  function Assigned(t: Team, p: nat): (r: Team)
    ensures r.queuePosition == Some(p) && r.switchValues.s0.Some?
    ensures r.members == t.members && r.round == t.round && r.round1Complete == t.round1Complete
    ensures r.round1Submissions == t.round1Submissions && r.round2Complete == t.round2Complete
    ensures r.resubmissions == t.resubmissions
  {
    var e := GetAssignmentFromLookup(p);
    var n := GetAssignedNumberFromQueue(p);
    var key8 := e.key + KeySuffix;
    var x := match ParseInt2(key8) case None => None case Some(v) => Some(Xor(n, v));
    t.(switchValues := Stored(e.switches), key4bit := Some(e.key), key8bit := key8,
       queuePosition := Some(p), assignedNumber := Some(n), xorValue := x, encryptionValue := x)
  }

  /**
   * An assignment is the puzzle of its position; its encryption value is
   * never null and, like the assigned number, fits in 8 bits.
   */
  lemma AssignedIsConsistent(t: Team, p: nat)
    ensures PuzzleConsistent(Assigned(t, p))
    ensures Assigned(t, p).encryptionValue.Some? && Assigned(t, p).encryptionValue.value < 256
    ensures Assigned(t, p).assignedNumber.Some? && Assigned(t, p).assignedNumber.value < 256
  {
    var e := GetAssignmentFromLookup(p);
    var n := GetAssignedNumberFromQueue(p);
    ExpandedKeyValue(e.key);
    assert ParseInt2(e.key + KeySuffix) == Some(BinVal(e.key + KeySuffix));
    assert Pow2(8) == 256;
    XorBelow(n, BinVal(e.key + KeySuffix), 8);
  }

  lemma AssignKeepsTeamValid(t: Team, p: nat)
    requires TeamValid(t)
    ensures TeamValid(Assigned(t, p))
  {
    AssignedIsConsistent(t, p);
  }

  /** For a consistent record a null switch, and S0 alone being null, both mean "not yet assigned". */
  lemma UnsetIffUnassigned(t: Team)
    requires PuzzleConsistent(t)
    ensures AnyUnset(t.switchValues) <==> t.queuePosition.None?
    ensures t.switchValues.s0.None? <==> t.queuePosition.None?
  {
  }

  /** A consistent assigned record's stored switches look up its own key. */
  lemma AssignedKeyIsFound(t: Team)
    requires PuzzleConsistent(t) && t.queuePosition.Some?
    ensures t.key4bit.Some? && GetCorrectKeyFromSwitches(t.switchValues) == t.key4bit
    ensures t.key8bit == t.key4bit.value + KeySuffix
  {
    var p := t.queuePosition.value;
    IndexOfRow(p % 16);
    TableRow(p % 16);
    assert BitsOf(t.switchValues) == SwitchesOfIndex(p % 16);
    CorrectKeyIsIndexedRow(t.switchValues);
  }

  /** The record after the administrative queue reset. */
  function ResetPuzzle(t: Team): (r: Team)
    ensures r.queuePosition.None? && GetCorrectKeyFromSwitches(r.switchValues).None?
    ensures r.round == 1 && !r.round1Complete && r.encryptionValue.None?
    ensures r.members == t.members && r.round1Submissions == t.round1Submissions
    ensures r.round2Complete == t.round2Complete && r.resubmissions == t.resubmissions
  {
    t.(switchValues := UnsetSwitches, key4bit := Some(""), key8bit := "", queuePosition := None,
       round := 1, round1Complete := false, assignedNumber := None, xorValue := None,
       encryptionValue := None)
  }

  lemma ResetKeepsTeamValid(t: Team)
    requires TeamValid(t)
    ensures TeamValid(ResetPuzzle(t)) && ResetPuzzle(t).members == t.members
  {
  }

  // ---------------------------------------------------------------------
  // Round 1

  predicate Submitted(subs: seq<Submission>, sid: SocketId)
  {
    exists i :: 0 <= i < |subs| && subs[i].socketId == sid
  }

  /** Replace this socket's entry if it has one, append otherwise. */
  function Upsert(subs: seq<Submission>, s: Submission): (r: seq<Submission>)
    ensures |r| == if Submitted(subs, s.socketId) then |subs| else |subs| + 1
  {
    if Submitted(subs, s.socketId) then
      seq(|subs|, i requires 0 <= i < |subs| => if subs[i].socketId == s.socketId then s else subs[i])
    else subs + [s]
  }

  /**
   * Upsert keeps one entry per socket, adds an entry only for a new socket,
   * and leaves the other sockets' entries as they were.
   */
  lemma UpsertShape(subs: seq<Submission>, s: Submission)
    requires SubmissionsDistinct(subs)
    ensures var r := Upsert(subs, s);
      && SubmissionsDistinct(r)
      && |r| == (if Submitted(subs, s.socketId) then |subs| else |subs| + 1)
      && (exists i :: 0 <= i < |r| && r[i] == s)
      && (forall i :: 0 <= i < |subs| && subs[i].socketId != s.socketId ==> r[i] == subs[i])
  {
    var r := Upsert(subs, s);
    if Submitted(subs, s.socketId) {
      var k :| 0 <= k < |subs| && subs[k].socketId == s.socketId;
      assert r[k] == s;
      forall i, j | 0 <= i < j < |r| ensures r[i].socketId != r[j].socketId {
        assert r[i].socketId == subs[i].socketId && r[j].socketId == subs[j].socketId;
      }
    } else {
      assert r[|subs|] == s;
      forall i, j | 0 <= i < j < |r| ensures r[i].socketId != r[j].socketId {
        if j < |subs| {
          assert r[i] == subs[i] && r[j] == subs[j];
        } else {
          assert r[i] == subs[i];
        }
      }
    }
  }

  /**
   * `submit_round1_key`: a wrong key only counts a resubmission; a correct
   * one upserts this socket's entry and, when the list then has exactly two
   * entries, completes round 1 with the expanded key.
   */
  function Round1Submitted(t: Team, sid: SocketId, key: KeyPayload, now: int): (r: Team)
    ensures r.members == t.members && r.queuePosition == t.queuePosition
    ensures r.switchValues == t.switchValues && r.round2Complete == t.round2Complete
    ensures r.resubmissions == t.resubmissions || r.resubmissions == t.resubmissions + 1
    ensures r.round1Complete ==> t.round1Complete || |r.round1Submissions| == 2
  {
    if GetCorrectKeyFromSwitches(t.switchValues) != key then
      t.(resubmissions := t.resubmissions + 1)
    else
      var subs := Upsert(t.round1Submissions, Submission(sid, key, now));
      if |subs| == 2 then
        t.(round1Submissions := subs, key4bit := key, key8bit := KeyText(key) + KeySuffix,
           round1Complete := true, round := 2)
      else t.(round1Submissions := subs)
  }

  /** A wrong key changes nothing but the resubmission count, which goes up by one. */
  lemma WrongKeyOnlyCounts(t: Team, sid: SocketId, key: KeyPayload, now: int)
    requires GetCorrectKeyFromSwitches(t.switchValues) != key
    ensures var r := Round1Submitted(t, sid, key, now);
      && r.resubmissions == t.resubmissions + 1
      && r.round1Submissions == t.round1Submissions && r.round == t.round
      && r.round1Complete == t.round1Complete && r.key4bit == t.key4bit && r.key8bit == t.key8bit
  {
  }

  /**
   * An unassigned team has no expected key (null), so every string key is
   * wrong, while a null key passes `key !== correctKey` and is recorded.
   */
  lemma UnassignedPassesOnlyNull(t: Team, sid: SocketId, key: KeyPayload, now: int)
    requires PuzzleConsistent(t) && t.queuePosition.None?
    ensures key.Some? ==> Round1Submitted(t, sid, key, now) == t.(resubmissions := t.resubmissions + 1)
    ensures key.None? ==> Round1Submitted(t, sid, key, now).resubmissions == t.resubmissions
    ensures key.None? ==>
      Round1Submitted(t, sid, key, now).round1Submissions == Upsert(t.round1Submissions, Submission(sid, None, now))
  {
  }

  /**
   * Two sockets sending a null key complete an unassigned team's round 1,
   * storing the key null and the expanded key "null1000".
   */
  lemma NullKeysCompleteUnassigned(t: Team, sid: SocketId, now: int, earlier: Submission)
    requires PuzzleConsistent(t) && t.queuePosition.None?
    requires t.round1Submissions == [earlier] && earlier.socketId != sid
    ensures var r := Round1Submitted(t, sid, None, now);
      && r.round1Complete && r.round == 2
      && r.key4bit.None? && r.key8bit == "null1000"
  {
    assert !Submitted(t.round1Submissions, sid);
  }

  /**
   * At the switch values of row 9 (S3 S2 S1 S0 = 1 0 0 1) the circuit's key
   * "0101" is only counted as a resubmission, and the table's "0111" is
   * the key that passes.
   */
  lemma CircuitKeyRejectedAtRowNine(t: Team, sid: SocketId, now: int)
    requires t.switchValues == Stored(SwitchesOfIndex(9))
    ensures Round1Submitted(t, sid, Some(CircuitKey(SwitchesOfIndex(9))), now) ==
      t.(resubmissions := t.resubmissions + 1)
    ensures Round1Submitted(t, sid, Some("0111"), now).resubmissions == t.resubmissions
    ensures IntendedKeyFromSwitches(t.switchValues) == Some(CircuitKey(SwitchesOfIndex(9)))
  {
    RowNineDisagrees();
    assert SwitchIndex(BitsOf(t.switchValues)) == 9;
  }

  lemma Round1KeepsTeamValid(t: Team, sid: SocketId, key: KeyPayload, now: int)
    requires TeamValid(t)
    ensures TeamValid(Round1Submitted(t, sid, key, now))
    ensures Round1Submitted(t, sid, key, now).round >= t.round
  {
    if GetCorrectKeyFromSwitches(t.switchValues) == key {
      UpsertShape(t.round1Submissions, Submission(sid, key, now));
      if t.queuePosition.Some? {
        AssignedKeyIsFound(t);
      }
    }
  }

  /**
   * Round 1 completes on a submission exactly when the correct key arrives
   * and the upserted list has two entries, i.e. two distinct sockets.
   */
  lemma Round1CompletionRule(t: Team, sid: SocketId, key: KeyPayload, now: int)
    requires SubmissionsDistinct(t.round1Submissions)
    ensures var r := Round1Submitted(t, sid, key, now);
      && (r.round1Complete && !t.round1Complete ==>
            && |r.round1Submissions| == 2
            && r.round1Submissions[0].socketId != r.round1Submissions[1].socketId
            && r.key4bit == key && r.key8bit == KeyText(key) + KeySuffix && r.round == 2)
      && ((GetCorrectKeyFromSwitches(t.switchValues) == key && |t.round1Submissions| == 1
             && t.round1Submissions[0].socketId != sid) ==> r.round1Complete && r.round == 2)
  {
    UpsertShape(t.round1Submissions, Submission(sid, key, now));
  }

  /** Repeating a correct key from the only socket that submitted does not complete round 1. */
  lemma SameSocketRepeatDoesNotComplete(t: Team, sid: SocketId, key: KeyPayload, now: int, earlier: Submission)
    requires t.round1Submissions == [earlier] && earlier.socketId == sid
    ensures |Round1Submitted(t, sid, key, now).round1Submissions| == 1
    ensures Round1Submitted(t, sid, key, now).round1Complete == t.round1Complete
  {
    assert t.round1Submissions[0].socketId == sid;
    assert Submitted(t.round1Submissions, sid);
  }

  // ---------------------------------------------------------------------
  // Round 2

  /** `submit_encryption` by the encrypting member: both strings stored verbatim, nothing judged. */
  function Encrypted(t: Team, ciphertext: string, plaintext: string): (r: Team)
    ensures r.ciphertext == ciphertext && r.plaintextDecimal == plaintext
    ensures r.round2Complete == t.round2Complete && r.resubmissions == t.resubmissions
    ensures r.key8bit == t.key8bit && r.encryptionValue == t.encryptionValue && r.members == t.members
  {
    t.(ciphertext := ciphertext, plaintextDecimal := plaintext)
  }

  /**
   * `submit_decryption` by the decrypting member: a value string-equal to the
   * stored plaintext completes round 2 at `now`; any other value counts a
   * resubmission.  Nothing guards a repeat after completion.
   */
  function Decrypted(t: Team, value: string, now: int): (r: Team)
    ensures r.round2Complete <==> t.round2Complete || value == t.plaintextDecimal
    ensures r.plaintextDecimal == t.plaintextDecimal && r.members == t.members
  {
    if value == t.plaintextDecimal then t.(round2Complete := true, completionTime := Some(now))
    else t.(resubmissions := t.resubmissions + 1)
  }

  lemma Round2KeepsTeamValid(t: Team, ciphertext: string, plaintext: string, value: string, now: int)
    requires TeamValid(t)
    ensures TeamValid(Encrypted(t, ciphertext, plaintext))
    ensures TeamValid(Decrypted(t, value, now))
  {
  }

  /**
   * Decryption outcomes: a match completes round 2 at `now`; a mismatch
   * leaves completion alone and counts one resubmission.
   */
  lemma DecryptionOutcomes(t: Team, value: string, now: int)
    ensures var r := Decrypted(t, value, now);
      && (value == t.plaintextDecimal ==> r.round2Complete && r.completionTime == Some(now) && r.resubmissions == t.resubmissions)
      && (value != t.plaintextDecimal ==>
            r.round2Complete == t.round2Complete && r.completionTime == t.completionTime
            && r.resubmissions == t.resubmissions + 1)
  {
  }

  /** A record never encrypted still holds plaintext "", so an empty decryption value completes it. */
  lemma EmptyValueCompletesUnencrypted(t: Team, now: int)
    requires t.plaintextDecimal == ""
    ensures Decrypted(t, "", now).round2Complete
  {
  }

  /** `disconnect`: the socket's member goes offline; no seat is removed or changed. */
  function WentOffline(t: Team, sid: SocketId): (r: Team)
    ensures |r.members| == |t.members| && r.(members := t.members) == t
  {
    t.(members := SetOnline(t.members, sid, false))
  }

  lemma DisconnectShape(t: Team, sid: SocketId)
    requires TeamValid(t)
    ensures var r := WentOffline(t, sid);
      && TeamValid(r)
      && |r.members| == |t.members|
      && (forall i :: 0 <= i < |t.members| ==>
            r.members[i].socketId == t.members[i].socketId && r.members[i].role == t.members[i].role)
      && (forall i :: 0 <= i < |t.members| && t.members[i].socketId == sid ==> !r.members[i].online)
  {
  }

  // ---------------------------------------------------------------------
  // The projection sent to one member

  datatype Field<T> = Absent | Present(value: T)

  datatype TeamView = TeamView(
    round: int,
    key4bit: Option<string>,
    key8bit: string,
    round1Complete: bool,
    round2Complete: bool,
    switchValues: Switches,
    ciphertext: string,
    memberCount: nat,
    teammateOnline: bool,
    role: Option<Role>,
    teammateRole: Option<Role>,
    members: seq<Member>,
    assignedNumber: Field<Option<nat>>,
    encryptionValue: Field<Option<nat>>)

  /** `members.find(m => m.socketId !== member.socketId)`. */
  function Teammate(ms: seq<Member>, sid: SocketId): (r: Option<Member>)
    ensures r.Some? ==> r.value in ms && r.value.socketId != sid
    ensures r.None? ==> forall i :: 0 <= i < |ms| ==> ms[i].socketId == sid
  {
    if ms == [] then None
    else if ms[0].socketId != sid then Some(ms[0])
    else Teammate(ms[1..], sid)
  }

  /**
   * `buildTeamState`: the shared fields, plus the assigned number for the
   * encrypting member only and the encryption value for the decrypting
   * member only; a caller who is not a member gets neither.
   */
  function BuildTeamState(t: Team, member: Option<Member>): (v: TeamView)
    ensures v.assignedNumber.Present? <==> member.Some? && member.value.role == Encrypt
    ensures v.encryptionValue.Present? <==> member.Some? && member.value.role == Decrypt
    ensures v.assignedNumber.Present? ==> v.assignedNumber.value == t.assignedNumber
    ensures v.encryptionValue.Present? ==> v.encryptionValue.value == t.encryptionValue
    ensures v.teammateOnline <==> OnlineCount(t.members) > 1
    ensures v.memberCount == |t.members| && v.members == t.members
    ensures member.None? ==> v.role.None? && v.teammateRole.None?
    ensures member.Some? ==> v.role == Some(member.value.role)
  {
    var teammate := if member.Some? then Teammate(t.members, member.value.socketId) else None;
    var base := TeamView(
      t.round, t.key4bit, t.key8bit, t.round1Complete, t.round2Complete, t.switchValues,
      t.ciphertext, |t.members|, OnlineCount(t.members) > 1,
      if member.Some? then Some(member.value.role) else None,
      if teammate.Some? then Some(teammate.value.role) else None,
      t.members, Absent, Absent);
    if member.Some? && member.value.role == Encrypt then base.(assignedNumber := Present(t.assignedNumber))
    else if member.Some? && member.value.role == Decrypt then base.(encryptionValue := Present(t.encryptionValue))
    else base
  }

  /** In a full valid team each member is told the other role as the teammate's. */
  lemma TeammateRoleIsTheOtherRole(t: Team, i: nat)
    requires MembersValid(t.members) && |t.members| == 2 && i < 2
    ensures BuildTeamState(t, Some(t.members[i])).teammateRole == Some(t.members[1 - i].role)
    ensures t.members[1 - i].role != t.members[i].role
  {
    var ms := t.members;
    assert ms[1..][1..] == [];
  }

  /** `members.find(m => m.socketId === sid)`. */
  function MemberOf(ms: seq<Member>, sid: SocketId): (r: Option<Member>)
    ensures r.Some? <==> Seated(ms, sid)
    ensures r.Some? ==> r.value in ms && r.value.socketId == sid
  {
    if ms == [] then None
    else if ms[0].socketId == sid then Some(ms[0])
    else
      var r := MemberOf(ms[1..], sid);
      assert Seated(ms, sid) ==> Seated(ms[1..], sid) by {
        if Seated(ms, sid) {
          var i :| 0 <= i < |ms| && ms[i].socketId == sid;
          assert ms[1..][i - 1] == ms[i];
        }
      }
      r
  }

  /** `member && member.role === role` for `member = members.find(m => m.socketId === sid)`. */
  predicate HoldsRole(t: Team, sid: SocketId, role: Role)
  {
    var m := MemberOf(t.members, sid);
    m.Some? && m.value.role == role
  }

  /** Under the member invariant, holding a role means some seat on that socket has it. */
  lemma HoldsRoleIffSeat(t: Team, sid: SocketId, role: Role)
    requires MembersValid(t.members)
    ensures HoldsRole(t, sid, role) <==>
      exists i :: 0 <= i < |t.members| && t.members[i].socketId == sid && t.members[i].role == role
  {
    if exists i :: 0 <= i < |t.members| && t.members[i].socketId == sid && t.members[i].role == role {
      var i :| 0 <= i < |t.members| && t.members[i].socketId == sid && t.members[i].role == role;
      var m := MemberOf(t.members, sid);
      var j :| 0 <= j < |t.members| && t.members[j] == m.value;
      assert i == j;
    }
  }
}
