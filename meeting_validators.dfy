/** The checks the meeting endpoints run before calling the meeting service. */
module MeetingValidators {
  import opened Wrappers
  import opened Domain

  datatype ValidationError =
    | InvalidTimeRange            // HTTP 400: the end is not after the start
    | ParticipantValidationError  // some participants are unknown or outside the team

  /** `check_meeting_time`: rejects a meeting whose end is not strictly after its start. */
  function CheckMeetingTime(start: Instant, end: Instant): (r: Outcome<ValidationError>)
    ensures r.Pass? <==> start < end
    ensures r.Fail? ==> r.error == InvalidTimeRange
  {
    if end <= start then Fail(InvalidTimeRange) else Pass
  }

  /** The distinct users `SELECT ... WHERE id IN ids AND team_id = teamId` returns. */
  function FoundParticipants(users: map<int, User>, ids: seq<int>, teamId: Option<int>): set<int> {
    set id | id in users.Keys && id in ids && users[id].teamId == teamId
  }

  /** `validate_meeting_participants`: passes iff as many users are found as ids were given. */
  function ValidateMeetingParticipants(users: map<int, User>, ids: seq<int>, teamId: Option<int>): Outcome<ValidationError> {
    if |FoundParticipants(users, ids, teamId)| != |ids| then Fail(ParticipantValidationError) else Pass
  }

  predicate AllInTeam(users: map<int, User>, ids: seq<int>, teamId: Option<int>) {
    forall i :: 0 <= i < |ids| ==> ids[i] in users && users[ids[i]].teamId == teamId
  }

  predicate Distinct(ids: seq<int>) {
    forall i, j :: 0 <= i < j < |ids| ==> ids[i] != ids[j]
  }

  function Elements(ids: seq<int>): set<int> {
    set id | id in ids
  }

  lemma {:induction false} ElementsCard(ids: seq<int>)
    ensures |Elements(ids)| <= |ids|
    ensures |Elements(ids)| == |ids| <==> Distinct(ids)
  {
    if ids != [] {
      var t := ids[1..];
      ElementsCard(t);
      assert Elements(ids) == {ids[0]} + Elements(t) by {
        assert ids == [ids[0]] + t;
      }
      if ids[0] in Elements(t) {
        var j :| 0 <= j < |t| && t[j] == ids[0];
        assert ids[0] == ids[j + 1];
        assert !Distinct(ids);
      } else {
        DistinctCons(ids);
      }
    }
  }

  /** A list whose head does not recur is distinct iff its tail is. */
  lemma DistinctCons(ids: seq<int>)
    requires ids != [] && ids[0] !in Elements(ids[1..])
    ensures Distinct(ids) <==> Distinct(ids[1..])
  {
    var t := ids[1..];
    if Distinct(t) {
      forall i, j | 0 <= i < j < |ids| ensures ids[i] != ids[j] {
        if i == 0 {
          assert ids[j] == t[j - 1];
          assert t[j - 1] in Elements(t);
        } else {
          assert ids[i] == t[i - 1] && ids[j] == t[j - 1];
        }
      }
    }
    if Distinct(ids) {
      forall i, j | 0 <= i < j < |t| ensures t[i] != t[j] {
        assert t[i] == ids[i + 1] && t[j] == ids[j + 1];
      }
    }
  }

  lemma ProperSubsetCard(a: set<int>, b: set<int>, x: int)
    requires a <= b && x in b && x !in a
    ensures |a| < |b|
  {
    var missing := b - a;
    assert x in missing;
    assert b == a + missing && a * missing == {};
  }

  /**
   * The participant check passes exactly when every id is a user of the team
   * and no id is repeated (the query returns each user once).
   */
  lemma ParticipantsPassIff(users: map<int, User>, ids: seq<int>, teamId: Option<int>)
    ensures ValidateMeetingParticipants(users, ids, teamId).Pass? <==> AllInTeam(users, ids, teamId) && Distinct(ids)
  {
    var found := FoundParticipants(users, ids, teamId);
    var all := Elements(ids);
    ElementsCard(ids);
    assert found <= all;
    if AllInTeam(users, ids, teamId) {
      forall id | id in all ensures id in found {
        var i :| 0 <= i < |ids| && ids[i] == id;
      }
      assert found == all;
    } else {
      var i :| 0 <= i < |ids| && !(ids[i] in users && users[ids[i]].teamId == teamId);
      assert ids[i] in all && ids[i] !in found;
      ProperSubsetCard(found, all, ids[i]);
    }
  }

  /** An unknown id, or the id of a user of another team, is rejected. */
  lemma ForeignParticipantRejected(users: map<int, User>, ids: seq<int>, teamId: Option<int>, i: nat)
    requires i < |ids| && (ids[i] !in users || users[ids[i]].teamId != teamId)
    ensures ValidateMeetingParticipants(users, ids, teamId) == Fail(ParticipantValidationError)
  {
    ParticipantsPassIff(users, ids, teamId);
  }

  /** A list that names one user twice is rejected, even if that user is in the team. */
  lemma DuplicateParticipantRejected(users: map<int, User>, ids: seq<int>, teamId: Option<int>, i: nat, j: nat)
    requires i < j < |ids| && ids[i] == ids[j]
    ensures ValidateMeetingParticipants(users, ids, teamId) == Fail(ParticipantValidationError)
  {
    ParticipantsPassIff(users, ids, teamId);
  }

  /** An empty participant list passes: no user is found and none was requested. */
  lemma EmptyParticipantsPass(users: map<int, User>, teamId: Option<int>)
    ensures ValidateMeetingParticipants(users, [], teamId) == Pass
  {
    assert FoundParticipants(users, [], teamId) == {};
  }
}
