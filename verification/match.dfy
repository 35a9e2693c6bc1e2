/** The Match entity: the participating teams, a date and time, and a location. */
module MatchModel {
  import opened Wrappers
  import opened Validation
  import opened Seqs
  import opened TeamModel

  /** A JavaScript `Date`, as its milliseconds since the epoch; any `Date` object is truthy. */
  type DateTime = int

  datatype Match = Match(id: Option<int>, teams: seq<Team>, dateTime: DateTime, location: string)

  /** A stored match row with its eagerly loaded team rows. */
  datatype MatchRow = MatchRow(id: int, teams: seq<TeamRow>, dateTime: DateTime, location: string)

  const TeamsRequired := "Match must have teams"
  const DateTimeRequired := "Match must have a date and time"
  const LocationRequired := "Match must have a location"

  /** The checks of `validate`, in order. An array, even an empty one, is truthy. */
  function MatchChecks(teams: Option<seq<Team>>, dateTime: Option<DateTime>, location: string): seq<Check> {
    [ Check(Present(teams), TeamsRequired),
      Check(Present(dateTime), DateTimeRequired),
      Check(TruthyString(location), LocationRequired) ]
  }

  /** `new Match({...})`: validate, then copy every field. Neither the number of teams nor
      duplicates among them are checked. */
  function NewMatch(id: Option<int>, teams: Option<seq<Team>>, dateTime: Option<DateTime>, location: string): (r: Result<Match, string>)
    ensures r.Success? <==> teams.Some? && dateTime.Some? && location != ""
    ensures r.Success? ==> r.value == Match(id, teams.value, dateTime.value, location)
    ensures teams.None? ==> r == Failure(TeamsRequired)
    ensures teams.Some? && dateTime.None? ==> r == Failure(DateTimeRequired)
    ensures teams.Some? && dateTime.Some? && location == "" ==> r == Failure(LocationRequired)
  {
    var checks := MatchChecks(teams, dateTime, location);
    assert !checks[0].passes ==> FailsFirstAt(checks, 0);
    assert !checks[1].passes ==> checks[0].passes ==> FailsFirstAt(checks, 1);
    assert !checks[2].passes ==> checks[0].passes && checks[1].passes ==> FailsFirstAt(checks, 2);
    match FirstFailure(checks)
    case Some(message) => Failure(message)
    case None =>
      assert checks[0].passes && checks[1].passes;
      Success(Match(id, teams.value, dateTime.value, location))
  }

  /** `Match.from(row)`: each team through `Team.from` (in order, the first failure wins),
      then the validating constructor. */
  function MatchFrom(row: MatchRow): (r: Result<Match, string>)
    ensures r.Success? <==>
      (forall i :: 0 <= i < |row.teams| ==> TeamFrom(row.teams[i]).Success?) && row.location != ""
    ensures r.Success? ==>
      && r.value.id == Some(row.id)
      && r.value.dateTime == row.dateTime
      && r.value.location == row.location
      && |r.value.teams| == |row.teams|
      && forall i :: 0 <= i < |row.teams| ==> TeamFrom(row.teams[i]) == Success(r.value.teams[i])
    ensures forall i :: 0 <= i < |row.teams| && TeamFrom(row.teams[i]).Failure? &&
                        (forall j :: 0 <= j < i ==> TeamFrom(row.teams[j]).Success?) ==>
      r == Failure(TeamFrom(row.teams[i]).error)
    ensures (forall i :: 0 <= i < |row.teams| ==> TeamFrom(row.teams[i]).Success?) && row.location == "" ==>
      r == Failure(LocationRequired)
  {
    var teams :- MapResult(row.teams, TeamFrom);
    NewMatch(Some(row.id), Some(teams), Some(row.dateTime), row.location)
  }
}
