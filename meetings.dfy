/**
 * Meeting scheduling: the conflict test, the participant join table and the
 * `MeetingService` operations on the store.
 */
module Meetings {
  import opened Wrappers
  import opened Domain
  import opened Seqs
  import opened Store
  import opened MeetingSchemas
  import MeetingValidators

  datatype MeetingError =
    | TimeConflict                // MeetingTimeConflictError
    | UserNotLoaded(userId: int)  // `session.get` found no user, and reading `user.id` raised
    | IntegrityError              // a NOT NULL or foreign-key constraint failed at flush or commit

  // ---------------------------------------------------------------------
  // Intervals

  /** The three OR'd clauses of `_check_time_conflicts`: existing [s2, e2) against candidate [s, e). */
  predicate ConflictClauses(s2: Instant, e2: Instant, s: Instant, e: Instant) {
    || (s2 <= s && e2 > s)
    || (s2 < e && e2 >= e)
    || (s2 >= s && e2 <= e)
  }

  /** The reference definition: two half-open ranges share an instant. */
  predicate Overlaps(s1: Instant, e1: Instant, s2: Instant, e2: Instant) {
    s1 < e2 && s2 < e1
  }

  /** For well-formed ranges the clauses are exactly half-open overlap. */
  lemma ClausesAreOverlap(s2: Instant, e2: Instant, s: Instant, e: Instant)
    requires s < e && s2 < e2
    ensures ConflictClauses(s2, e2, s, e) <==> Overlaps(s2, e2, s, e)
  {
  }

  /** Back-to-back meetings do not conflict. */
  lemma TouchingNeverConflicts(s2: Instant, e2: Instant, s: Instant, e: Instant)
    requires s < e && s2 < e2
    requires e2 == s || e == s2
    ensures !ConflictClauses(s2, e2, s, e)
  {
  }

  /** For well-formed ranges, which of the two is the existing one does not matter. */
  lemma ConflictSymmetric(s2: Instant, e2: Instant, s: Instant, e: Instant)
    requires s < e && s2 < e2
    ensures ConflictClauses(s2, e2, s, e) <==> ConflictClauses(s, e, s2, e2)
  {
  }

  /**
   * For an existing range whose end precedes its start (which an update can
   * store), the clauses and overlap disagree: [30, 20) still blocks [21, 25).
   */
  lemma InvertedRangeStillBlocks()
    ensures ConflictClauses(30, 20, 21, 25) && !Overlaps(30, 20, 21, 25)
  {
  }

  // ---------------------------------------------------------------------
  // Lookups and the participant join

  predicate UniqueIds(ms: seq<Meeting>) {
    forall i, j :: 0 <= i < j < |ms| ==> ms[i].id != ms[j].id
  }

  /** The position of the meeting with primary key `id`. */
  function MeetingIndex(ms: seq<Meeting>, id: int): (r: Option<nat>)
    ensures r.Some? ==> r.value < |ms| && ms[r.value].id == id
    ensures r.None? <==> forall j :: 0 <= j < |ms| ==> ms[j].id != id
  {
    IndexWhere(ms, (m: Meeting) => m.id == id)
  }

  lemma MeetingIndexUnique(ms: seq<Meeting>, j: nat)
    requires UniqueIds(ms) && j < |ms|
    ensures MeetingIndex(ms, ms[j].id) == Some(j)
  {
  }

  /**
   * `select(Meeting).join(MeetingParticipant).where(user_id == userId)`: one
   * meeting per participant row of the user, in row order; the inner join
   * drops rows whose meeting does not exist.
   */
  function UserMeetingRows(ms: seq<Meeting>, ps: seq<Participant>, userId: int): (r: seq<Meeting>)
    ensures |r| <= |ps|
    ensures forall i :: 0 <= i < |r| ==> r[i] in ms && Participant(r[i].id, userId) in ps
    decreases |ps|
  {
    if ps == [] then []
    else
      var rest := UserMeetingRows(ms, ps[1..], userId);
      if ps[0].userId == userId then
        match MeetingIndex(ms, ps[0].meetingId)
        case Some(k) => [ms[k]] + rest
        case None => rest
      else rest
  }

  lemma {:induction false} UserMeetingRowsMembership(ms: seq<Meeting>, ps: seq<Participant>, userId: int, m: Meeting)
    requires UniqueIds(ms)
    ensures m in UserMeetingRows(ms, ps, userId) <==> m in ms && Participant(m.id, userId) in ps
    decreases |ps|
  {
    if ps != [] {
      UserMeetingRowsMembership(ms, ps[1..], userId, m);
      assert ps == [ps[0]] + ps[1..];
      if m in ms && ps[0] == Participant(m.id, userId) {
        var j :| 0 <= j < |ms| && ms[j] == m;
        MeetingIndexUnique(ms, j);
      }
    }
  }

  // ---------------------------------------------------------------------
  // `_check_time_conflicts`

  /** `if exclude_meeting_id:` skips the filter when the id is absent or 0. */
  predicate Excluded(m: Meeting, exclude: Option<int>) {
    exclude.Some? && exclude.value != 0 && m.id == exclude.value
  }

  predicate ConflictsWith(m: Meeting, s: Instant, e: Instant, exclude: Option<int>) {
    !m.isCancelled && ConflictClauses(m.start, m.end, s, e) && !Excluded(m, exclude)
  }

  /** The rows the conflict query returns for the user. */
  function ConflictingMeetings(ms: seq<Meeting>, ps: seq<Participant>, userId: int, s: Instant, e: Instant, exclude: Option<int>): seq<Meeting> {
    Filter(UserMeetingRows(ms, ps, userId), (m: Meeting) => ConflictsWith(m, s, e, exclude))
  }

  /** The query raises `MeetingTimeConflictError` iff it returns a row. */
  predicate HasConflict(ms: seq<Meeting>, ps: seq<Participant>, userId: int, s: Instant, e: Instant, exclude: Option<int>) {
    ConflictingMeetings(ms, ps, userId, s, e, exclude) != []
  }

  /**
   * A conflict is reported iff some stored meeting lists the user as a
   * participant, is not cancelled, is not the excluded one and meets the clauses.
   */
  lemma HasConflictIff(ms: seq<Meeting>, ps: seq<Participant>, userId: int, s: Instant, e: Instant, exclude: Option<int>)
    requires UniqueIds(ms)
    ensures HasConflict(ms, ps, userId, s, e, exclude) <==>
      exists m :: m in ms && Participant(m.id, userId) in ps && ConflictsWith(m, s, e, exclude)
  {
    var rows := UserMeetingRows(ms, ps, userId);
    var found := ConflictingMeetings(ms, ps, userId, s, e, exclude);
    if found != [] {
      UserMeetingRowsMembership(ms, ps, userId, found[0]);
    }
    if m :| m in ms && Participant(m.id, userId) in ps && ConflictsWith(m, s, e, exclude) {
      UserMeetingRowsMembership(ms, ps, userId, m);
      var i :| 0 <= i < |rows| && rows[i] == m;
      assert m in found;
    }
  }

  /** Excluding a meeting's own (non-zero) id means it never conflicts with itself. */
  lemma NeverConflictsWithItself(m: Meeting, s: Instant, e: Instant)
    requires m.id != 0
    ensures !ConflictsWith(m, s, e, Some(m.id))
  {
  }

  // ---------------------------------------------------------------------
  // Queries

  /** `get_meeting`: the meeting with that id, but only for its organizer. */
  function GetMeeting(ms: seq<Meeting>, meetingId: int, userId: int): (r: Option<Meeting>)
    ensures r.Some? ==> r.value in ms && r.value.id == meetingId && r.value.organizerId == userId
    ensures r.None? <==> forall j :: 0 <= j < |ms| ==> !(ms[j].id == meetingId && ms[j].organizerId == userId)
  {
    match IndexWhere(ms, (m: Meeting) => m.id == meetingId && m.organizerId == userId)
    case Some(k) => Some(ms[k])
    case None => None
  }

  /** A stored meeting is returned to its organizer and to nobody else. */
  lemma GetMeetingOrganizerOnly(ms: seq<Meeting>, j: nat, userId: int)
    requires UniqueIds(ms) && j < |ms|
    ensures GetMeeting(ms, ms[j].id, userId) == if ms[j].organizerId == userId then Some(ms[j]) else None
  {
    var r := GetMeeting(ms, ms[j].id, userId);
    if r.Some? {
      var i :| 0 <= i < |ms| && ms[i] == r.value;
      assert i == j;
    }
  }

  /** `get_user_meetings`: the user's meetings, cancelled ones only on request, then `OFFSET`/`LIMIT`. */
  function GetUserMeetings(ms: seq<Meeting>, ps: seq<Participant>, userId: int, skip: nat := 0, limit: nat := 100, includeCancelled: bool := false): (r: seq<Meeting>)
    ensures |r| <= limit
    ensures forall i :: 0 <= i < |r| ==>
      r[i] in ms && Participant(r[i].id, userId) in ps && (includeCancelled || !r[i].isCancelled)
  {
    Page(Filter(UserMeetingRows(ms, ps, userId), (m: Meeting) => includeCancelled || !m.isCancelled), skip, limit)
  }

  /** On the first page, when the limit covers every row, every qualifying meeting is listed. */
  lemma GetUserMeetingsComplete(ms: seq<Meeting>, ps: seq<Participant>, userId: int, limit: nat, includeCancelled: bool, m: Meeting)
    requires UniqueIds(ms) && |ps| <= limit
    requires m in ms && Participant(m.id, userId) in ps && (includeCancelled || !m.isCancelled)
    ensures m in GetUserMeetings(ms, ps, userId, 0, limit, includeCancelled)
  {
    var rows := UserMeetingRows(ms, ps, userId);
    var kept := Filter(rows, (x: Meeting) => includeCancelled || !x.isCancelled);
    UserMeetingRowsMembership(ms, ps, userId, m);
    var i :| 0 <= i < |rows| && rows[i] == m;
    assert m in kept;
    var k :| 0 <= k < |kept| && kept[k] == m;
    assert GetUserMeetings(ms, ps, userId, 0, limit, includeCancelled)[k] == m;
  }

  // ---------------------------------------------------------------------
  // The participant join table

  /** One join row per id, in list order. */
  function ParticipantRows(meetingId: int, ids: seq<int>): (r: seq<Participant>)
    ensures |r| == |ids|
    ensures forall i :: 0 <= i < |r| ==> r[i] == Participant(meetingId, ids[i])
  {
    if ids == [] then [] else ParticipantRows(meetingId, ids[..|ids| - 1]) + [Participant(meetingId, ids[|ids| - 1])]
  }

  /** The participant list of a meeting as the join table holds it, in row order. */
  function ParticipantIds(ps: seq<Participant>, meetingId: int): seq<int> {
    if ps == [] then []
    else (if ps[0].meetingId == meetingId then [ps[0].userId] else []) + ParticipantIds(ps[1..], meetingId)
  }

  lemma {:induction false} ParticipantIdsConcat(a: seq<Participant>, b: seq<Participant>, meetingId: int)
    ensures ParticipantIds(a + b, meetingId) == ParticipantIds(a, meetingId) + ParticipantIds(b, meetingId)
  {
    if a == [] {
      assert a + b == b;
    } else {
      var c := a + b;
      assert c[0] == a[0] && c[1..] == a[1..] + b;
      ParticipantIdsConcat(a[1..], b, meetingId);
      var h := if a[0].meetingId == meetingId then [a[0].userId] else [];
      assert ParticipantIds(c, meetingId) == h + ParticipantIds(c[1..], meetingId);
      assert ParticipantIds(a, meetingId) == h + ParticipantIds(a[1..], meetingId);
    }
  }

  lemma {:induction false} ParticipantIdsOfRows(meetingId: int, ids: seq<int>, other: int)
    ensures ParticipantIds(ParticipantRows(meetingId, ids), other) == if other == meetingId then ids else []
  {
    if ids != [] {
      var init := ids[..|ids| - 1];
      ParticipantIdsOfRows(meetingId, init, other);
      ParticipantIdsConcat(ParticipantRows(meetingId, init), [Participant(meetingId, ids[|ids| - 1])], other);
      assert ids == init + [ids[|ids| - 1]];
    }
  }

  lemma {:induction false} ParticipantIdsAbsent(ps: seq<Participant>, meetingId: int)
    requires forall i :: 0 <= i < |ps| ==> ps[i].meetingId != meetingId
    ensures ParticipantIds(ps, meetingId) == []
  {
    if ps != [] {
      ParticipantIdsAbsent(ps[1..], meetingId);
    }
  }

  /** `delete(MeetingParticipant).where(meeting_id == meetingId)`. */
  function DeleteParticipants(ps: seq<Participant>, meetingId: int): seq<Participant> {
    Filter(ps, (p: Participant) => p.meetingId != meetingId)
  }

  lemma {:induction false} DeleteParticipantsEffect(ps: seq<Participant>, meetingId: int, other: int)
    ensures ParticipantIds(DeleteParticipants(ps, meetingId), other) == if other == meetingId then [] else ParticipantIds(ps, other)
  {
    if ps != [] {
      DeleteParticipantsEffect(ps[1..], meetingId, other);
    }
  }

  /** The delete-then-insert update of a meeting's participants. */
  function ReplaceParticipants(ps: seq<Participant>, meetingId: int, ids: seq<int>): seq<Participant> {
    DeleteParticipants(ps, meetingId) + ParticipantRows(meetingId, ids)
  }

  /** After a replace the meeting's participants are exactly `ids`, and every other meeting's are as before. */
  lemma ReplaceParticipantsEffect(ps: seq<Participant>, meetingId: int, ids: seq<int>, other: int)
    ensures ParticipantIds(ReplaceParticipants(ps, meetingId, ids), other)
         == if other == meetingId then ids else ParticipantIds(ps, other)
  {
    ParticipantIdsConcat(DeleteParticipants(ps, meetingId), ParticipantRows(meetingId, ids), other);
    DeleteParticipantsEffect(ps, meetingId, other);
    ParticipantIdsOfRows(meetingId, ids, other);
  }

  /** Appending the rows of a fresh meeting gives it exactly `ids` and leaves the others alone. */
  lemma AppendParticipantsEffect(ps: seq<Participant>, meetingId: int, ids: seq<int>, other: int)
    requires forall i :: 0 <= i < |ps| ==> ps[i].meetingId != meetingId
    ensures ParticipantIds(ps + ParticipantRows(meetingId, ids), other)
         == if other == meetingId then ids else ParticipantIds(ps, other)
  {
    ParticipantIdsConcat(ps, ParticipantRows(meetingId, ids), other);
    ParticipantIdsOfRows(meetingId, ids, other);
    if other == meetingId {
      ParticipantIdsAbsent(ps, meetingId);
    }
  }

  /** The response of a meeting endpoint: the meeting and its participant list. */
  function ReadMeeting(m: Meeting, ps: seq<Participant>): (r: MeetingRead)
    ensures r.id == m.id && r.participants == ParticipantIds(ps, m.id)
  {
    ToRead(m, ParticipantIds(ps, m.id))
  }

  // ---------------------------------------------------------------------
  // `create_meeting`

  /** What checking one listed participant raises, if anything. */
  function ParticipantFailure(users: map<int, User>, ms: seq<Meeting>, ps: seq<Participant>, pid: int, s: Instant, e: Instant): Option<MeetingError> {
    if pid !in users then Some(UserNotLoaded(pid))
    else if HasConflict(ms, ps, users[pid].id, s, e, None) then Some(TimeConflict)
    else None
  }

  /** The participants are checked in list order; the first failure is raised. */
  function FirstParticipantFailure(users: map<int, User>, ms: seq<Meeting>, ps: seq<Participant>, ids: seq<int>, s: Instant, e: Instant): (r: Option<MeetingError>)
    ensures r.None? <==> forall i :: 0 <= i < |ids| ==> ParticipantFailure(users, ms, ps, ids[i], s, e).None?
    ensures r.Some? ==> exists i :: 0 <= i < |ids| && r == ParticipantFailure(users, ms, ps, ids[i], s, e)
  {
    match IndexWhere(ids, (pid: int) => ParticipantFailure(users, ms, ps, pid, s, e).Some?)
    case Some(k) => ParticipantFailure(users, ms, ps, ids[k], s, e)
    case None => None
  }

  lemma FirstParticipantFailureAt(users: map<int, User>, ms: seq<Meeting>, ps: seq<Participant>, ids: seq<int>, s: Instant, e: Instant, i: nat)
    requires i < |ids|
    requires forall j :: 0 <= j < i ==> ParticipantFailure(users, ms, ps, ids[j], s, e).None?
    requires ParticipantFailure(users, ms, ps, ids[i], s, e).Some?
    ensures FirstParticipantFailure(users, ms, ps, ids, s, e) == ParticipantFailure(users, ms, ps, ids[i], s, e)
  {
    var k := IndexWhere(ids, (pid: int) => ParticipantFailure(users, ms, ps, pid, s, e).Some?);
    assert k.Some? && k.value == i;
  }

  /** Participants that passed the meeting validator are all loaded, so only a time conflict can stop the create. */
  lemma ValidatedParticipantsOnlyConflict(users: map<int, User>, ms: seq<Meeting>, ps: seq<Participant>, ids: seq<int>, s: Instant, e: Instant, teamId: Option<int>)
    requires MeetingValidators.ValidateMeetingParticipants(users, ids, teamId).Pass?
    ensures FirstParticipantFailure(users, ms, ps, ids, s, e) in {None, Some(TimeConflict)}
  {
    MeetingValidators.ParticipantsPassIff(users, ids, teamId);
  }

  predicate TeamExists(teams: seq<Team>, teamId: int) {
    IndexWhere(teams, (t: Team) => t.id == teamId).Some?
  }

  /** What `create_meeting` raises: a participant check, else the NOT NULL / foreign key on `team_id` at flush. */
  function CreateFailure(users: map<int, User>, teams: seq<Team>, ms: seq<Meeting>, ps: seq<Participant>, c: MeetingCreate, organizer: User): Option<MeetingError> {
    var f := FirstParticipantFailure(users, ms, ps, c.participants, c.start, c.end);
    if f.Some? then f
    else if organizer.teamId.None? || !TeamExists(teams, organizer.teamId.value) then Some(IntegrityError)
    else None
  }

  /** The meeting row `create_meeting` builds (`is_cancelled` takes its column default). */
  function NewMeeting(id: int, c: MeetingCreate, organizer: User): (r: Meeting)
    requires organizer.teamId.Some?
    ensures r.id == id && !r.isCancelled && r.organizerId == organizer.id && r.teamId == organizer.teamId.value
    ensures r.title == c.title && r.description == c.description && r.start == c.start && r.end == c.end
  {
    Meeting(id, c.title, c.description, c.start, c.end, false, organizer.id, organizer.teamId.value)
  }

  /** A participant busy 10:00-11:00 blocks a new meeting at 10:30-11:30. */
  lemma OverlappingCreateRejected()
    ensures var busy := Meeting(1, "standup", None, 36_000, 39_600, false, 7, 1);
            var users := map[7 := User(7, RoleUser, Some(1))];
            FirstParticipantFailure(users, [busy], [Participant(1, 7)], [7], 37_800, 41_400) == Some(TimeConflict)
  {
    var busy := Meeting(1, "standup", None, 36_000, 39_600, false, 7, 1);
    var users := map[7 := User(7, RoleUser, Some(1))];
    assert UserMeetingRows([busy], [Participant(1, 7)], 7) == [busy] by {
      assert MeetingIndex([busy], 1) == Some(0);
    }
    assert ParticipantFailure(users, [busy], [Participant(1, 7)], 7, 37_800, 41_400) == Some(TimeConflict);
    FirstParticipantFailureAt(users, [busy], [Participant(1, 7)], [7], 37_800, 41_400, 0);
  }

  // ---------------------------------------------------------------------
  // `update_meeting`

  /** `start_datetime or end_datetime`: a datetime is always truthy, so this asks whether one was sent. */
  predicate TimeGiven(p: MeetingUpdate) {
    p.start.Value? || p.end.Value?
  }

  /** `patch.start_datetime or meeting.start_datetime`. */
  function EffectiveStart(m: Meeting, p: MeetingUpdate): Instant {
    p.start.Given().GetOr(m.start)
  }

  function EffectiveEnd(m: Meeting, p: MeetingUpdate): Instant {
    p.end.Given().GetOr(m.end)
  }

  /** An explicit null on a NOT NULL column. */
  predicate NullOnRequired(p: MeetingUpdate) {
    p.title.Null? || p.start.Null? || p.end.Null? || p.isCancelled.Null?
  }

  predicate AllUsersExist(users: map<int, User>, ids: seq<int>) {
    forall i :: 0 <= i < |ids| ==> ids[i] in users
  }

  /**
   * What `update_meeting` raises. The conflict check covers only the acting
   * user; then the commit fails on a null in a NOT NULL column or a
   * participant row naming no user.
   */
  function UpdateFailure(users: map<int, User>, ms: seq<Meeting>, ps: seq<Participant>, m: Meeting, p: MeetingUpdate, userId: int): Option<MeetingError> {
    if TimeGiven(p) && HasConflict(ms, ps, userId, EffectiveStart(m, p), EffectiveEnd(m, p), Some(m.id)) then Some(TimeConflict)
    else if NullOnRequired(p) || (p.participants.Value? && !AllUsersExist(users, p.participants.v)) then Some(IntegrityError)
    else None
  }

  /** The `setattr` loop over the sent fields other than participants. */
  function PatchMeeting(m: Meeting, p: MeetingUpdate): Meeting {
    m.(title := if p.title.Value? then p.title.v else m.title,
       description := if p.description.Unset? then m.description else p.description.Given(),
       start := if p.start.Value? then p.start.v else m.start,
       end := if p.end.Value? then p.end.v else m.end,
       isCancelled := if p.isCancelled.Value? then p.isCancelled.v else m.isCancelled)
  }

  /** Every sent field is overwritten, a sent null clears the description, and nothing else changes. */
  lemma PatchMeetingFields(m: Meeting, p: MeetingUpdate)
    ensures var r := PatchMeeting(m, p);
      && r.id == m.id && r.organizerId == m.organizerId && r.teamId == m.teamId
      && (p.title.Value? ==> r.title == p.title.v) && (!p.title.Value? ==> r.title == m.title)
      && (p.description.Value? ==> r.description == Some(p.description.v))
      && (p.description.Null? ==> r.description == None)
      && (p.description.Unset? ==> r.description == m.description)
      && (p.start.Value? ==> r.start == p.start.v) && (!p.start.Value? ==> r.start == m.start)
      && (p.end.Value? ==> r.end == p.end.v) && (!p.end.Value? ==> r.end == m.end)
      && (p.isCancelled.Value? ==> r.isCancelled == p.isCancelled.v) && (!p.isCancelled.Value? ==> r.isCancelled == m.isCancelled)
  {
  }

  /** An empty patch always succeeds and leaves the meeting as it was. */
  lemma EmptyPatchIsIdentity(users: map<int, User>, ms: seq<Meeting>, ps: seq<Participant>, m: Meeting, userId: int)
    ensures UpdateFailure(users, ms, ps, m, EMPTY_UPDATE, userId) == None
    ensures PatchMeeting(m, EMPTY_UPDATE) == m
  {
  }

  /**
   * The update checks only the acting user: moving meeting 1 onto a slot
   * where its other participant (user 2) is busy succeeds.
   */
  lemma UpdateIgnoresParticipantConflicts()
    ensures var a := Meeting(1, "sync", None, 10, 20, false, 1, 1);
            var b := Meeting(2, "review", None, 30, 40, false, 2, 1);
            var ps := [Participant(1, 1), Participant(1, 2), Participant(2, 2)];
            var p := EMPTY_UPDATE.(start := Value(30), end := Value(40));
            var users := map[1 := User(1, RoleUser, Some(1)), 2 := User(2, RoleUser, Some(1))];
            && UpdateFailure(users, [a, b], ps, a, p, 1) == None
            && HasConflict([a, b], ps, 2, 30, 40, Some(1))
  {
    var a := Meeting(1, "sync", None, 10, 20, false, 1, 1);
    var b := Meeting(2, "review", None, 30, 40, false, 2, 1);
    var ps := [Participant(1, 1), Participant(1, 2), Participant(2, 2)];
    assert MeetingIndex([a, b], 1) == Some(0);
    assert [a, b][1..] == [b];
    assert MeetingIndex([b], 2) == Some(0);
    assert MeetingIndex([a, b], 2) == Some(1);
    assert ps[1..] == [Participant(1, 2), Participant(2, 2)];
    assert ps[2..] == [Participant(2, 2)];
    assert UserMeetingRows([a, b], ps[2..], 1) == [];
    assert UserMeetingRows([a, b], ps, 1) == [a];
    assert UserMeetingRows([a, b], ps[2..], 2) == [b];
    assert UserMeetingRows([a, b], ps, 2) == [a, b];
    assert ConflictingMeetings([a, b], ps, 1, 30, 40, Some(1)) == [];
    assert Filter([a, b][1..], (m: Meeting) => ConflictsWith(m, 30, 40, Some(1))) == [b];
  }

  /** The update does not re-check time order: moving only the start past the end is accepted. */
  lemma UpdateMayInvertRange()
    ensures var a := Meeting(1, "sync", None, 10, 20, false, 1, 1);
            var p := EMPTY_UPDATE.(start := Value(30));
            && UpdateFailure(map[], [a], [Participant(1, 1)], a, p, 1) == None
            && PatchMeeting(a, p).end <= PatchMeeting(a, p).start
            && MeetingValidators.CheckMeetingTime(PatchMeeting(a, p).start, PatchMeeting(a, p).end).Fail?
  {
    var a := Meeting(1, "sync", None, 10, 20, false, 1, 1);
    assert MeetingIndex([a], 1) == Some(0);
    assert UserMeetingRows([a], [Participant(1, 1)], 1) == [a];
  }

  /** The update payload may carry `is_cancelled`, so a cancelled meeting can be reinstated. */
  lemma UpdateMayUncancel(users: map<int, User>, ms: seq<Meeting>, ps: seq<Participant>, m: Meeting, userId: int)
    requires m.isCancelled
    ensures UpdateFailure(users, ms, ps, m, EMPTY_UPDATE.(isCancelled := Value(false)), userId) == None
    ensures !PatchMeeting(m, EMPTY_UPDATE.(isCancelled := Value(false))).isCancelled
  {
  }

  // ---------------------------------------------------------------------
  // `cancel_meeting`

  /** The logical delete: the flag is set and nothing else changes. */
  function Cancelled(m: Meeting): (r: Meeting)
    ensures r.isCancelled && r.(isCancelled := m.isCancelled) == m
  {
    m.(isCancelled := true)
  }

  lemma CancelIdempotent(m: Meeting)
    ensures Cancelled(Cancelled(m)) == Cancelled(m)
  {
  }

  /** A cancelled meeting blocks nobody and leaves the default listing. */
  lemma CancelledIsInert(ms: seq<Meeting>, ps: seq<Participant>, m: Meeting, userId: int, s: Instant, e: Instant, exclude: Option<int>, skip: nat, limit: nat)
    ensures !ConflictsWith(Cancelled(m), s, e, exclude)
    ensures Cancelled(m) !in GetUserMeetings(ms, ps, userId, skip, limit, false)
  {
  }

  // ---------------------------------------------------------------------
  // The store's meeting invariants under each change

  /** A new meeting with the next id, and its rows naming it and loaded users, keeps the keys and foreign keys. */
  lemma CreateKeepsKeys(users: map<int, User>, ms: seq<Meeting>, ps: seq<Participant>, n: nat, m: Meeting, ids: seq<int>)
    requires MeetingKeys(ms, ps, n) && ParticipantRefs(users, ms, ps) && m.id == n + 1
    requires AllUsersExist(users, ids)
    ensures MeetingKeys(ms + [m], ps + ParticipantRows(m.id, ids), n + 1)
    ensures ParticipantRefs(users, ms + [m], ps + ParticipantRows(m.id, ids))
  {
    var rows := ParticipantRows(m.id, ids);
    var ms' := ms + [m];
    assert forall i :: 0 <= i < |ps + rows| ==> (ps + rows)[i] == if i < |ps| then ps[i] else rows[i - |ps|];
    forall i | 0 <= i < |ps + rows| ensures RowRefs(users, ms', (ps + rows)[i]) {
      if i < |ps| {
        var j :| 0 <= j < |ms| && ms[j].id == ps[i].meetingId;
        assert ms'[j] == ms[j];
      } else {
        assert ms'[|ms|] == m;
        assert ids[i - |ps|] in users;
      }
    }
  }

  /** A patch that keeps the meeting's id keeps the keys and every row's foreign keys. */
  lemma PatchKeepsKeys(users: map<int, User>, ms: seq<Meeting>, ps: seq<Participant>, n: nat, k: nat, patched: Meeting)
    requires MeetingKeys(ms, ps, n) && ParticipantRefs(users, ms, ps) && k < |ms| && patched.id == ms[k].id
    ensures MeetingKeys(ms[k := patched], ps, n) && ParticipantRefs(users, ms[k := patched], ps)
  {
    var ms' := ms[k := patched];
    forall i | 0 <= i < |ps| ensures RowRefs(users, ms', ps[i]) {
      var j :| 0 <= j < |ms| && ms[j].id == ps[i].meetingId;
      assert ms'[j].id == ms[j].id;
    }
  }

  /** Replacing a stored meeting's rows by rows naming loaded users keeps the keys and foreign keys. */
  lemma ReplaceKeepsKeys(users: map<int, User>, ms: seq<Meeting>, ps: seq<Participant>, n: nat, k: nat, ids: seq<int>)
    requires MeetingKeys(ms, ps, n) && ParticipantRefs(users, ms, ps) && k < |ms|
    requires AllUsersExist(users, ids)
    ensures MeetingKeys(ms, ReplaceParticipants(ps, ms[k].id, ids), n)
    ensures ParticipantRefs(users, ms, ReplaceParticipants(ps, ms[k].id, ids))
  {
    var kept := DeleteParticipants(ps, ms[k].id);
    var rows := ParticipantRows(ms[k].id, ids);
    forall i | 0 <= i < |kept| ensures 1 <= kept[i].meetingId <= n && RowRefs(users, ms, kept[i]) {
      var j :| 0 <= j < |ps| && ps[j] == kept[i];
      assert RowRefs(users, ms, ps[j]);
    }
    forall i | 0 <= i < |rows| ensures RowRefs(users, ms, rows[i]) {
      assert rows[i] == Participant(ms[k].id, ids[i]);
      assert ids[i] in users;
    }
    assert forall i :: 0 <= i < |kept + rows| ==> (kept + rows)[i] == if i < |kept| then kept[i] else rows[i - |kept|];
  }

  /** An update keeps the keys: the patched meeting keeps its id and the replaced rows point at it and at loaded users. */
  lemma UpdateKeepsKeys(users: map<int, User>, ms: seq<Meeting>, ps: seq<Participant>, n: nat, k: nat, patched: Meeting, ids: Field<seq<int>>)
    requires MeetingKeys(ms, ps, n) && ParticipantRefs(users, ms, ps) && k < |ms| && patched.id == ms[k].id
    requires ids.Value? ==> AllUsersExist(users, ids.v)
    ensures var ps' := if ids.Value? then ReplaceParticipants(ps, ms[k].id, ids.v) else ps;
      MeetingKeys(ms[k := patched], ps', n) && ParticipantRefs(users, ms[k := patched], ps')
  {
    PatchKeepsKeys(users, ms, ps, n, k, patched);
    if ids.Value? {
      ReplaceKeepsKeys(users, ms[k := patched], ps, n, k, ids.v);
    }
  }

  lemma KeysUnique(ms: seq<Meeting>, ps: seq<Participant>, n: nat)
    requires MeetingKeys(ms, ps, n)
    ensures UniqueIds(ms)
  {
  }

  /** The `session.add(MeetingParticipant(...))` loop: one pending row per listed id, in order. */
  method NewParticipantRows(meetingId: int, ids: seq<int>) returns (rows: seq<Participant>)
    ensures rows == ParticipantRows(meetingId, ids)
  {
    rows := [];
    var j := 0;
    while j < |ids|
      invariant 0 <= j <= |ids|
      invariant rows == ParticipantRows(meetingId, ids[..j])
    {
      assert ids[..j + 1][..j] == ids[..j];
      rows := rows + [Participant(meetingId, ids[j])];
      j := j + 1;
    }
    assert ids[..|ids|] == ids;
  }

  // ---------------------------------------------------------------------
  // The service

  class MeetingService {
    const session: Session

    constructor (session: Session)
      ensures this.session == session
    {
      this.session := session;
    }

    /** The `_check_time_conflicts` loop of `create_meeting`: the first participant that is missing or busy. */
    method CheckParticipants(ids: seq<int>, start: Instant, end: Instant) returns (failure: Option<MeetingError>)
      ensures failure == FirstParticipantFailure(session.users, session.meetings, session.participants, ids, start, end)
    {
      var i := 0;
      while i < |ids|
        invariant 0 <= i <= |ids|
        invariant forall j :: 0 <= j < i ==> ParticipantFailure(session.users, session.meetings, session.participants, ids[j], start, end).None?
      {
        var pid := ids[i];
        if pid !in session.users {
          FirstParticipantFailureAt(session.users, session.meetings, session.participants, ids, start, end, i);
          return Some(UserNotLoaded(pid));
        }
        var participant := session.users[pid];
        if HasConflict(session.meetings, session.participants, participant.id, start, end, None) {
          FirstParticipantFailureAt(session.users, session.meetings, session.participants, ids, start, end, i);
          return Some(TimeConflict);
        }
        i := i + 1;
      }
      return None;
    }

    /**
     * `create_meeting`: check every participant, then insert the meeting and
     * one join row per listed id. Any failure leaves the store unchanged.
     */
    method CreateMeeting(c: MeetingCreate, user: User) returns (r: Result<Meeting, MeetingError>)
      requires session.Valid()
      modifies session`meetings, session`participants, session`meetingSeq
      ensures session.Valid()
      ensures var f := CreateFailure(old(session.users), old(session.teams), old(session.meetings), old(session.participants), c, user);
        && (f.Some? ==> r == Err(f.value) && session.meetings == old(session.meetings)
                        && session.participants == old(session.participants) && session.meetingSeq == old(session.meetingSeq))
        && (f.None? ==> user.teamId.Some? && r == Ok(NewMeeting(old(session.meetingSeq) + 1, c, user))
                        && session.meetings == old(session.meetings) + [r.value]
                        && session.participants == old(session.participants) + ParticipantRows(r.value.id, c.participants)
                        && session.meetingSeq == old(session.meetingSeq) + 1)
    {
      var ids := c.participants;
      var failure := CheckParticipants(ids, c.start, c.end);
      if failure.Some? {
        return Err(failure.value);
      }
      if user.teamId.None? {
        return Err(IntegrityError);
      }
      var teamId := user.teamId.value;
      if !TeamExists(session.teams, teamId) {
        return Err(IntegrityError);
      }
      var m := NewMeeting(session.meetingSeq + 1, c, user);
      assert AllUsersExist(session.users, ids) by {
        forall i | 0 <= i < |ids| ensures ids[i] in session.users {
          assert ParticipantFailure(session.users, session.meetings, session.participants, ids[i], c.start, c.end).None?;
        }
      }
      StoreCreate(m, ids);
      r := Ok(m);
    }

    /** The commit of `create_meeting`: the meeting under the next id, then one join row per listed id. */
    method StoreCreate(m: Meeting, ids: seq<int>)
      requires session.Valid() && m.id == session.meetingSeq + 1 && AllUsersExist(session.users, ids)
      modifies session`meetings, session`participants, session`meetingSeq
      ensures session.Valid()
      ensures session.meetings == old(session.meetings) + [m]
      ensures session.participants == old(session.participants) + ParticipantRows(m.id, ids)
      ensures session.meetingSeq == old(session.meetingSeq) + 1
    {
      var rows := NewParticipantRows(m.id, ids);
      CreateKeepsKeys(session.users, session.meetings, session.participants, session.meetingSeq, m, ids);
      session.meetingSeq, session.meetings, session.participants := session.meetingSeq + 1, session.meetings + [m], session.participants + rows;
    }

    /**
     * `update_meeting` on the stored meeting `meetingId`, by `user`: the
     * acting user's conflict check, the patch, and the replace of the
     * participant rows when a list was sent.
     */
    method UpdateMeeting(meetingId: int, p: MeetingUpdate, user: User) returns (r: Result<Meeting, MeetingError>)
      requires session.Valid() && MeetingIndex(session.meetings, meetingId).Some?
      modifies session`meetings, session`participants
      ensures session.Valid()
      ensures var k := MeetingIndex(old(session.meetings), meetingId).value;
              var m := old(session.meetings)[k];
              var f := UpdateFailure(old(session.users), old(session.meetings), old(session.participants), m, p, user.id);
        && (f.Some? ==> r == Err(f.value) && session.meetings == old(session.meetings) && session.participants == old(session.participants))
        && (f.None? ==> r == Ok(PatchMeeting(m, p))
                        && session.meetings == old(session.meetings)[k := PatchMeeting(m, p)]
                        && session.participants == if p.participants.Value? then ReplaceParticipants(old(session.participants), meetingId, p.participants.v)
                                                   else old(session.participants))
    {
      var k := MeetingIndex(session.meetings, meetingId).value;
      var m := session.meetings[k];
      // the conflict check for the acting user only, then the database's constraints at commit
      var f := UpdateFailure(session.users, session.meetings, session.participants, m, p, user.id);
      if f.Some? {
        return Err(f.value);
      }
      var patched := PatchMeeting(m, p);
      StoreUpdate(k, patched, p.participants);
      r := Ok(patched);
    }

    /** The commit of `update_meeting`: the patched meeting in place, and its rows replaced when a list was sent. */
    method StoreUpdate(k: nat, patched: Meeting, ids: Field<seq<int>>)
      requires session.Valid() && k < |session.meetings| && patched.id == session.meetings[k].id
      requires ids.Value? ==> AllUsersExist(session.users, ids.v)
      modifies session`meetings, session`participants
      ensures session.Valid()
      ensures session.meetings == old(session.meetings)[k := patched]
      ensures session.participants == if ids.Value? then ReplaceParticipants(old(session.participants), patched.id, ids.v)
                                      else old(session.participants)
    {
      var ps := session.participants;
      if ids.Value? {
        var rows := NewParticipantRows(patched.id, ids.v);
        ps := DeleteParticipants(session.participants, patched.id) + rows;
      }
      UpdateKeepsKeys(session.users, session.meetings, session.participants, session.meetingSeq, k, patched, ids);
      session.meetings, session.participants := session.meetings[k := patched], ps;
    }

    /** `cancel_meeting`: set the flag on the stored meeting `meetingId`. */
    method CancelMeeting(meetingId: int) returns (m: Meeting)
      requires session.Valid() && MeetingIndex(session.meetings, meetingId).Some?
      modifies session`meetings
      ensures session.Valid()
      ensures var k := MeetingIndex(old(session.meetings), meetingId).value;
        m == Cancelled(old(session.meetings)[k]) && session.meetings == old(session.meetings)[k := m]
    {
      var k := MeetingIndex(session.meetings, meetingId).value;
      m := Cancelled(session.meetings[k]);
      PatchKeepsKeys(session.users, session.meetings, session.participants, session.meetingSeq, k, m);
      session.meetings := session.meetings[k := m];
    }
  }
}
