/** The Team entity: a name, a location, one coach and an ordered roster of players. */
module TeamModel {
  import opened Wrappers
  import opened Validation
  import opened Seqs
  import opened CoachModel
  import opened PlayerModel

  datatype Team = Team(id: Option<int>, teamName: string, location: string, coach: Coach, players: seq<Player>)

  /** A stored team row with its eagerly loaded coach and player rows. */
  datatype TeamRow = TeamRow(id: int, teamName: string, location: string, coach: CoachRow, players: seq<PlayerRow>)

  const NameRequired := "Team must have a name"
  const LocationRequired := "Team must have a location"

  /** The checks of `validate`, in order. Coach and players are not checked. */
  function TeamChecks(teamName: string, location: string): seq<Check> {
    [ Check(TruthyString(teamName), NameRequired),
      Check(TruthyString(location), LocationRequired) ]
  }

  /** `new Team({...})`: validate name and location, then copy every field; any roster, even an empty one, is accepted. */
  function NewTeam(id: Option<int>, teamName: string, location: string, coach: Coach, players: seq<Player>): (r: Result<Team, string>)
    ensures r.Success? <==> teamName != "" && location != ""
    ensures r.Success? ==> r.value == Team(id, teamName, location, coach, players)
    ensures teamName == "" ==> r == Failure(NameRequired)
    ensures teamName != "" && location == "" ==> r == Failure(LocationRequired)
  {
    var checks := TeamChecks(teamName, location);
    assert !checks[0].passes ==> FailsFirstAt(checks, 0);
    assert !checks[1].passes ==> checks[0].passes ==> FailsFirstAt(checks, 1);
    match FirstFailure(checks)
    case Some(message) => Failure(message)
    case None => Success(Team(id, teamName, location, coach, players))
  }

  /** The part of `team.equals` before the roster: ids, name, location and `coach.equals`. */
  predicate SameDetails(a: Team, b: Team) {
    a.id == b.id && a.teamName == b.teamName && a.location == b.location && CoachEquals(a.coach, b.coach)
  }

  /** `mine.every((player, index) => player.equals(theirs[index]))`. The walk stops at the first
      unequal pair; `None` is the TypeError raised when it reaches an index past the end of `theirs`
      (`equals` destructures `undefined`). */
  function RosterEvery(mine: seq<Player>, theirs: seq<Player>): (r: Option<bool>)
    ensures r == Some(true) <==> mine <= theirs
    ensures r == None <==> theirs < mine
    decreases |mine|
  {
    if mine == [] then Some(true)
    else if theirs == [] then None
    else if !PlayerEquals(mine[0], theirs[0]) then Some(false)
    else
      var rest := RosterEvery(mine[1..], theirs[1..]);
      assert mine == [mine[0]] + mine[1..];
      assert theirs == [theirs[0]] + theirs[1..];
      rest
  }

  /** `a.equals(b)`: `None` when the call throws. Only the first `|a.players|` players of `b`
      are compared, so `a`'s roster need only be a prefix of `b`'s. */
  function TeamEquals(a: Team, b: Team): (r: Option<bool>)
    ensures r == Some(true) <==> SameDetails(a, b) && a.players <= b.players
    ensures r == None <==> SameDetails(a, b) && b.players < a.players
  {
    if !SameDetails(a, b) then Some(false) else RosterEvery(a.players, b.players)
  }

  /** With the same details, a strict prefix roster compares equal one way and throws the other way. */
  lemma TeamEqualsAsymmetric(a: Team, b: Team)
    requires SameDetails(a, b) && a.players < b.players
    ensures TeamEquals(a, b) == Some(true)
    ensures TeamEquals(b, a) == None
  {
  }

  /** A concrete pair: the same team with an empty roster and with one player. */
  lemma TeamEqualsNotSymmetric(t: Team, p: Player)
    requires t.players == []
    ensures TeamEquals(t, t.(players := [p])) == Some(true)
    ensures TeamEquals(t.(players := [p]), t) == None
  {
  }

  /** Team equality as evidently intended: the rosters must also have the same length. */
  function TeamEqualsIntended(a: Team, b: Team): (r: bool)
    ensures r <==> a == b
  {
    SameDetails(a, b) && |a.players| == |b.players| &&
    forall i :: 0 <= i < |a.players| ==> PlayerEquals(a.players[i], b.players[i])
  }

  /** `Team.from(row)`: the coach through `Coach.from`, each player through `Player.from`
      (in order, the first failure wins), then the validating constructor. */
  function TeamFrom(row: TeamRow): (r: Result<Team, string>)
    ensures r.Success? <==>
      && CoachFrom(row.coach).Success?
      && (forall i :: 0 <= i < |row.players| ==> PlayerFrom(row.players[i]).Success?)
      && row.teamName != "" && row.location != ""
    ensures r.Success? ==>
      && r.value.id == Some(row.id)
      && r.value.teamName == row.teamName
      && r.value.location == row.location
      && CoachFrom(row.coach) == Success(r.value.coach)
      && |r.value.players| == |row.players|
      && forall i :: 0 <= i < |row.players| ==> PlayerFrom(row.players[i]) == Success(r.value.players[i])
    ensures CoachFrom(row.coach).Failure? ==> r.Failure? && r.error == CoachFrom(row.coach).error
    ensures CoachFrom(row.coach).Success? ==>
      forall i :: 0 <= i < |row.players| && PlayerFrom(row.players[i]).Failure? &&
                  (forall j :: 0 <= j < i ==> PlayerFrom(row.players[j]).Success?) ==>
        r == Failure(PlayerFrom(row.players[i]).error)
    ensures CoachFrom(row.coach).Success? && (forall i :: 0 <= i < |row.players| ==> PlayerFrom(row.players[i]).Success?) ==>
      && (row.teamName == "" ==> r == Failure(NameRequired))
      && (row.teamName != "" && row.location == "" ==> r == Failure(LocationRequired))
  {
    var coach :- CoachFrom(row.coach);
    var players :- MapResult(row.players, PlayerFrom);
    NewTeam(Some(row.id), row.teamName, row.location, coach, players)
  }
}
