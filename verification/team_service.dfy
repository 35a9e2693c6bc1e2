/** The team service: precondition checks, in a fixed order, before each store write. */
module TeamService {
  import opened Wrappers
  import opened Validation
  import opened CoachModel
  import opened PlayerModel
  import opened TeamModel
  import opened Store

  /** The coach part of a team creation request; only its id is used. */
  datatype CoachRef = CoachRef(id: Option<int>)

  /** One entry of a team creation request's player list; only its id is used. */
  datatype PlayerRef = PlayerRef(id: Option<int>)

  const CoachIdRequired := "Coach ID is required"
  const CoachNotFound := "Coach not found"
  const PlayerIdRequired := "Player ID is required"
  const PlayersNotFound := "One or more players not found"
  const TeamNotFound := "Team not found"
  const PlayerNotFound := "Player not found"
  const ServiceErrorPrefix := "Service error: "

  /** `createTeam` rethrows every error it meets with this prefix. */
  function ServiceError(message: string): (r: string)
    ensures ServiceErrorPrefix <= r && r[|ServiceErrorPrefix|..] == message
  {
    ServiceErrorPrefix + message
  }

  /** The players a request names, looked up in order; meaningful once every id is present and resolves. */
  function ResolvedPlayers(players: map<int, Player>, inputs: seq<PlayerRef>): (r: seq<Player>)
    requires forall i :: 0 <= i < |inputs| ==> inputs[i].id.Some? && inputs[i].id.value in players
    ensures |r| == |inputs|
  {
    seq(|inputs|, i requires 0 <= i < |inputs| => players[inputs[i].id.value])
  }

  /** What `createTeam` decides from the store's coaches and players: the team it writes
      (still without an id) or the error it throws. */
  function PlanTeam(coaches: map<int, Coach>, players: map<int, Player>, teamName: string, location: string,
                    coach: Option<CoachRef>, inputs: seq<PlayerRef>): (r: Result<Team, string>)
    ensures r.Failure? ==> ServiceErrorPrefix <= r.error
    ensures r.Success? <==>
      && coach.Some? && TruthyId(coach.value.id) && coach.value.id.value in coaches
      && (forall i :: 0 <= i < |inputs| ==> TruthyId(inputs[i].id) && inputs[i].id.value in players)
      && teamName != "" && location != ""
    ensures r.Success? ==>
      && r.value.id == None
      && r.value.teamName == teamName && r.value.location == location
      && r.value.coach == coaches[coach.value.id.value]
      && |r.value.players| == |inputs|
      && forall i :: 0 <= i < |inputs| ==> r.value.players[i] == players[inputs[i].id.value]
  {
    if coach.None? || !TruthyId(coach.value.id) then Failure(ServiceError(CoachIdRequired))
    else if coach.value.id.value !in coaches then Failure(ServiceError(CoachNotFound))
    else if exists i :: 0 <= i < |inputs| && !TruthyId(inputs[i].id) then Failure(ServiceError(PlayerIdRequired))
    else if exists i :: 0 <= i < |inputs| && inputs[i].id.value !in players then Failure(ServiceError(PlayersNotFound))
    else
      match NewTeam(None, teamName, location, coaches[coach.value.id.value], ResolvedPlayers(players, inputs))
      case Failure(e) => Failure(ServiceError(e))
      case Success(t) => Success(t)
  }

  /** The order of `createTeam`'s checks: coach id, coach lookup, every player id, player lookups,
      then the Team validation; the first failing one decides the message. */
  lemma CreateTeamCheckOrder(coaches: map<int, Coach>, players: map<int, Player>, teamName: string, location: string,
                             coach: Option<CoachRef>, inputs: seq<PlayerRef>)
    ensures var r := PlanTeam(coaches, players, teamName, location, coach, inputs);
      && (coach.None? || !TruthyId(coach.value.id) ==> r == Failure(ServiceError(CoachIdRequired)))
      && (coach.Some? && TruthyId(coach.value.id) && coach.value.id.value !in coaches ==>
            r == Failure(ServiceError(CoachNotFound)))
      && (coach.Some? && TruthyId(coach.value.id) && coach.value.id.value in coaches &&
          (exists i :: 0 <= i < |inputs| && !TruthyId(inputs[i].id)) ==>
            r == Failure(ServiceError(PlayerIdRequired)))
      && (coach.Some? && TruthyId(coach.value.id) && coach.value.id.value in coaches &&
          (forall i :: 0 <= i < |inputs| ==> TruthyId(inputs[i].id)) &&
          (exists i :: 0 <= i < |inputs| && inputs[i].id.value !in players) ==>
            r == Failure(ServiceError(PlayersNotFound)))
      && (coach.Some? && TruthyId(coach.value.id) && coach.value.id.value in coaches &&
          (forall i :: 0 <= i < |inputs| ==> TruthyId(inputs[i].id) && inputs[i].id.value in players) ==>
            && (teamName == "" ==> r == Failure(ServiceError(NameRequired)))
            && (teamName != "" && location == "" ==> r == Failure(ServiceError(TeamModel.LocationRequired))))
  {
  }

  /** `getTeamById`: `None` (null) for a missing id rather than an error. */
  function GetTeamById(db: Database, id: int): (r: Option<Team>)
    reads db
    requires db.Valid()
    ensures r.None? <==> id !in db.teams
    ensures r.Some? ==> r.value == db.teams[id] && r.value.id == Some(id)
  {
    db.GetTeamById(id)
  }

  /** `createTeam`: the checks of `PlanTeam`, then one store write. Nothing is written on any error
      path, so an unresolved player leaves no partial team behind. */
  method CreateTeam(db: Database, teamName: string, location: string, coach: Option<CoachRef>, inputs: seq<PlayerRef>)
    returns (r: Result<Team, string>)
    requires db.Valid()
    modifies db
    ensures db.Valid()
    ensures var plan := PlanTeam(old(db.coaches), old(db.players), teamName, location, coach, inputs);
      && (plan.Failure? ==> r == plan && unchanged(db))
      && (plan.Success? ==>
            && r == Success(plan.value.(id := Some(old(db.nextTeamId))))
            && old(db.nextTeamId) !in old(db.teams)
            && db.teams == old(db.teams)[old(db.nextTeamId) := r.value]
            && db.players == old(db.players) && db.coaches == old(db.coaches) && db.users == old(db.users))
  {
    if coach.None? || !TruthyId(coach.value.id) {
      return Failure(ServiceError(CoachIdRequired));
    }
    var found := db.GetCoachById(coach.value.id.value);
    if found.None? {
      return Failure(ServiceError(CoachNotFound));
    }
    var validPlayers: seq<Player> := [];
    if |inputs| > 0 {
      // `inputs.map(...)`: an input without an id throws at once; the others start a lookup.
      var fetched: seq<Option<Player>> := [];
      var i := 0;
      while i < |inputs|
        invariant 0 <= i <= |inputs|
        invariant |fetched| == i
        invariant forall k :: 0 <= k < i ==> TruthyId(inputs[k].id) && fetched[k] == db.GetPlayerById(inputs[k].id.value)
      {
        if !TruthyId(inputs[i].id) {
          return Failure(ServiceError(PlayerIdRequired));
        }
        fetched := fetched + [db.GetPlayerById(inputs[i].id.value)];
        i := i + 1;
      }
      // `playersFetched.filter(player => player !== null)`
      var j := 0;
      while j < |fetched|
        invariant 0 <= j <= |fetched|
        invariant |validPlayers| <= j
        invariant (exists k :: 0 <= k < j && fetched[k].None?) ==> |validPlayers| < j
        invariant (forall k :: 0 <= k < j ==> fetched[k].Some?) ==>
                    |validPlayers| == j && forall k :: 0 <= k < j ==> validPlayers[k] == fetched[k].value
      {
        if fetched[j].Some? {
          validPlayers := validPlayers + [fetched[j].value];
        }
        j := j + 1;
      }
      if |validPlayers| != |inputs| {
        return Failure(ServiceError(PlayersNotFound));
      }
      assert forall k :: 0 <= k < |inputs| ==> fetched[k].Some?;
    }
    assert validPlayers == ResolvedPlayers(db.players, inputs);
    var team := NewTeam(None, teamName, location, found.value, validPlayers);
    if team.Failure? {
      return Failure(ServiceError(team.error));
    }
    assert CoachLoads(team.value.coach);
    assert forall q :: q in team.value.players ==> PlayerLoads(q) by {
      forall q | q in team.value.players ensures PlayerLoads(q) {
        var k :| 0 <= k < |validPlayers| && validPlayers[k] == q;
        assert q == db.players[inputs[k].id.value];
      }
    }
    // The write is returned without `await`, so a store failure here would bypass the prefix.
    r := db.CreateTeam(team.value);
  }

  /** `joinTeam`: the team lookup comes first, then the player lookup; on either error the
      store is untouched. */
  method JoinTeam(db: Database, teamId: int, playerId: int) returns (r: Result<Team, string>)
    requires db.Valid()
    modifies db
    ensures db.Valid()
    ensures teamId !in old(db.teams) ==> r == Failure(TeamNotFound) && unchanged(db)
    ensures teamId in old(db.teams) && playerId !in old(db.players) ==> r == Failure(PlayerNotFound) && unchanged(db)
    ensures teamId in old(db.teams) && playerId in old(db.players) ==>
      && r == Success(Connect(old(db.teams[teamId]), old(db.players[playerId])))
      && OnRoster(r.value, playerId)
      && db.teams == old(db.teams)[teamId := r.value]
      && db.players == old(db.players) && db.coaches == old(db.coaches) && db.users == old(db.users)
  {
    var team := db.GetTeamById(teamId);
    if team.None? {
      return Failure(TeamNotFound);
    }
    var player := db.GetPlayerById(playerId);
    if player.None? {
      return Failure(PlayerNotFound);
    }
    r := db.JoinTeam(teamId, playerId);
  }

  /** `leaveTeam`: the same lookups in the same order; on success the player is off the roster. */
  method LeaveTeam(db: Database, teamId: int, playerId: int) returns (r: Result<Team, string>)
    requires db.Valid()
    modifies db
    ensures db.Valid()
    ensures teamId !in old(db.teams) ==> r == Failure(TeamNotFound) && unchanged(db)
    ensures teamId in old(db.teams) && playerId !in old(db.players) ==> r == Failure(PlayerNotFound) && unchanged(db)
    ensures teamId in old(db.teams) && playerId in old(db.players) ==>
      && r == Success(Disconnect(old(db.teams[teamId]), playerId))
      && !OnRoster(r.value, playerId)
      && db.teams == old(db.teams)[teamId := r.value]
      && db.players == old(db.players) && db.coaches == old(db.coaches) && db.users == old(db.users)
  {
    var team := db.GetTeamById(teamId);
    if team.None? {
      return Failure(TeamNotFound);
    }
    var player := db.GetPlayerById(playerId);
    if player.None? {
      return Failure(PlayerNotFound);
    }
    r := db.LeaveTeam(teamId, playerId);
  }

  /** `updateTeam`: a missing team is an error; otherwise only the name and the location are
      forwarded, so coach and roster stay as they were. Neither is validated here, but an empty
      one makes the store's reload fail with the generic error. */
  method UpdateTeam(db: Database, id: int, teamName: string, location: string) returns (r: Result<Team, string>)
    requires db.Valid()
    modifies db
    ensures db.Valid()
    ensures id !in old(db.teams) ==> r == Failure(TeamNotFound) && unchanged(db)
    ensures id in old(db.teams) && (teamName == "" || location == "") ==>
      r == Failure(DatabaseError) && unchanged(db)
    ensures id in old(db.teams) && teamName != "" && location != "" ==>
      && r.Success?
      && r.value == old(db.teams[id]).(teamName := teamName, location := location)
      && db.teams == old(db.teams)[id := r.value]
      && db.players == old(db.players) && db.coaches == old(db.coaches) && db.users == old(db.users)
  {
    var team := db.GetTeamById(id);
    if team.None? {
      return Failure(TeamNotFound);
    }
    r := db.UpdateTeam(id, teamName, location);
  }
}
