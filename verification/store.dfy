// The persistent store the services talk to, reduced to maps of entities. It stands in for the
// data-access layer (the `.db.ts` files under back-end/domain/data-access), whose every
// failure becomes the one generic error below.
module Store {
  import opened Wrappers
  import opened Seqs
  import opened UserModel
  import opened CoachModel
  import opened PlayerModel
  import opened TeamModel

  const DatabaseError := "Database error. See server log for details."

  /** A stored user row that `User.from` rebuilds; every read of the store reloads through `from`
      inside its `try`, so a row failing validation is read as the generic error. */
  predicate UserLoads(u: User) {
    u.username != "" && u.firstName != "" && u.lastName != "" && u.email != "" && u.password != ""
  }

  /** A coach row that `Coach.from` rebuilds. */
  predicate CoachLoads(c: Coach) {
    UserLoads(c.user) && c.rating != 0 && c.experience != 0
  }

  /** A player row that `Player.from` rebuilds. */
  predicate PlayerLoads(p: Player) {
    UserLoads(p.user) && p.age != 0 && p.position != ""
  }

  /** A team row, with its coach and players, that `Team.from` rebuilds. */
  predicate TeamLoads(t: Team) {
    t.teamName != "" && t.location != "" && CoachLoads(t.coach) && forall q :: q in t.players ==> PlayerLoads(q)
  }

  /** Some entry of the roster has this player id. */
  predicate OnRoster(t: Team, playerId: int) {
    exists i :: 0 <= i < |t.players| && t.players[i].id == Some(playerId)
  }

  /** The association write of `joinTeam` (a `connect`): the player is added at the end of the
      roster unless an entry with its id is already there. */
  function Connect(t: Team, p: Player): (r: Team)
    requires p.id.Some?
    ensures OnRoster(r, p.id.value)
    ensures r.(players := t.players) == t
    ensures t.players <= r.players
    ensures OnRoster(t, p.id.value) ==> r == t
    ensures !OnRoster(t, p.id.value) ==> r.players == t.players + [p]
  {
    if OnRoster(t, p.id.value) then t
    else
      assert (t.players + [p])[|t.players|] == p;
      t.(players := t.players + [p])
  }

  /** The association write of `leaveTeam` (a `disconnect`): every entry with that id goes,
      the others stay in order. */
  function Disconnect(t: Team, playerId: int): (r: Team)
    ensures !OnRoster(r, playerId)
    ensures r.(players := t.players) == t
    ensures IsSubsequence(r.players, t.players)
    ensures forall q :: q in r.players ==> q in t.players
    ensures forall q :: q in t.players && q.id != Some(playerId) ==> q in r.players
  {
    var kept := Filter(t.players, (q: Player) => q.id != Some(playerId));
    assert forall i :: 0 <= i < |kept| ==> kept[i] in kept;
    t.(players := kept)
  }

  /** Leaving undoes joining a team the player was not on. */
  lemma {:induction false} DisconnectUndoesConnect(t: Team, p: Player)
    requires p.id.Some? && !OnRoster(t, p.id.value)
    ensures Disconnect(Connect(t, p), p.id.value) == t
  {
    var pid := p.id.value;
    var keep := (q: Player) => q.id != Some(pid);
    forall q | q in t.players ensures keep(q) {
      var i :| 0 <= i < |t.players| && t.players[i] == q;
    }
    FilterConcat(t.players, [p], keep);
    FilterKeepsAll(t.players, keep);
    assert Filter([p], keep) == [];
  }

  /** The team `teamDb.createTeam` writes as it stands: the coach connection, the name and the
      location under the new id. The team's players are not part of the write. */
  function CreatedAsWritten(team: Team, id: int): (r: Team)
    ensures r.id == Some(id) && r.players == []
    ensures r.(id := team.id, players := team.players) == team
  {
    team.(id := Some(id), players := [])
  }

  /** A team created with a non-empty roster comes back without it, so the players the service
      looked up one by one are lost. */
  lemma CreateDropsRoster(team: Team, id: int)
    requires team.players != []
    ensures CreatedAsWritten(team, id) != team.(id := Some(id))
    ensures |CreatedAsWritten(team, id).players| < |team.players|
  {
  }

  /** The argument `teamDb.updateTeam` destructures: a team whose coach may be missing. */
  datatype TeamUpdate = TeamUpdate(id: int, coach: Option<Coach>, teamName: string, location: string)

  /** `teamDb.updateTeam` as it stands. Connecting the coach needs the id of a stored coach:
      reading the id of a missing coach throws inside the `try`, and an absent or unknown id or
      an unknown team makes the store's update throw. The updated row is then reloaded through
      `Team.from`, which throws when it does not validate. The `catch` turns each into the
      generic error. The reloaded team carries the stored coach of that id. */
  function UpdateAsWritten(teams: map<int, Team>, coaches: map<int, Coach>, arg: TeamUpdate): (r: Result<Team, string>)
    ensures r.Success? <==>
      && arg.coach.Some? && arg.coach.value.id.Some? && arg.coach.value.id.value in coaches && arg.id in teams
      && TeamLoads(teams[arg.id].(coach := coaches[arg.coach.value.id.value],
                                  teamName := arg.teamName, location := arg.location))
    ensures r.Success? ==> arg.teamName != "" && arg.location != ""
    ensures r.Failure? ==> r.error == DatabaseError
    ensures r.Success? ==>
      r.value == teams[arg.id].(coach := coaches[arg.coach.value.id.value],
                                teamName := arg.teamName, location := arg.location)
  {
    if arg.coach.None? || arg.coach.value.id.None? then Failure(DatabaseError)
    else if arg.coach.value.id.value !in coaches || arg.id !in teams then Failure(DatabaseError)
    else
      var updated := teams[arg.id].(coach := coaches[arg.coach.value.id.value],
                                    teamName := arg.teamName, location := arg.location);
      if TeamLoads(updated) then Success(updated) else Failure(DatabaseError)
  }

  /** The team service passes only id, name and location, so the update never succeeds, even
      for a stored team. */
  lemma ServiceUpdateAlwaysFails(teams: map<int, Team>, coaches: map<int, Coach>, id: int, teamName: string, location: string)
    ensures UpdateAsWritten(teams, coaches, TeamUpdate(id, None, teamName, location)) == Failure(DatabaseError)
  {
  }

  class Database {
    var teams: map<int, Team>
    var players: map<int, Player>
    var coaches: map<int, Coach>
    var users: map<string, User>
    var nextTeamId: int
    var nextUserId: int

    /** Every stored entity carries the key it is stored under and reloads through its `from`,
        and fresh team ids lie above the used ones. */
    ghost predicate Valid()
      reads this
    {
      && (forall k :: k in teams ==> teams[k].id == Some(k) && k < nextTeamId && TeamLoads(teams[k]))
      && (forall k :: k in players ==> players[k].id == Some(k) && PlayerLoads(players[k]))
      && (forall k :: k in coaches ==> coaches[k].id == Some(k) && CoachLoads(coaches[k]))
      && (forall name :: name in users ==>
            users[name].username == name && users[name].id.Some? && UserLoads(users[name]))
    }

    /** A store holding the given players and coaches and no teams or users. */
    constructor (players: map<int, Player>, coaches: map<int, Coach>)
      requires forall k :: k in players ==> players[k].id == Some(k) && PlayerLoads(players[k])
      requires forall k :: k in coaches ==> coaches[k].id == Some(k) && CoachLoads(coaches[k])
      ensures Valid()
      ensures this.players == players && this.coaches == coaches
      ensures teams == map[] && users == map[]
    {
      this.players := players;
      this.coaches := coaches;
      teams := map[];
      users := map[];
      nextTeamId := 1;
      nextUserId := 1;
    }

    /** `teamDb.getTeamById`: `None` for an unknown id. */
    function GetTeamById(id: int): (r: Option<Team>)
      reads this
      requires Valid()
      ensures r.Some? <==> id in teams
      ensures r.Some? ==> r.value == teams[id] && r.value.id == Some(id)
    {
      if id in teams then Some(teams[id]) else None
    }

    /** `playerDb.getPlayerById`: `None` for an unknown id. */
    function GetPlayerById(id: int): (r: Option<Player>)
      reads this
      requires Valid()
      ensures r.Some? <==> id in players
      ensures r.Some? ==> r.value == players[id] && r.value.id == Some(id)
    {
      if id in players then Some(players[id]) else None
    }

    /** `coachDb.getCoachById`: `None` for an unknown id. */
    function GetCoachById(id: int): (r: Option<Coach>)
      reads this
      requires Valid()
      ensures r.Some? <==> id in coaches
      ensures r.Some? ==> r.value == coaches[id] && r.value.id == Some(id)
    {
      if id in coaches then Some(coaches[id]) else None
    }

    /** `userDb.getUserByUsername`: `None` for an unknown username. */
    function GetUserByUsername(username: string): (r: Option<User>)
      reads this
      requires Valid()
      ensures r.Some? <==> username in users
      ensures r.Some? ==> r.value == users[username] && r.value.username == username
    {
      if username in users then Some(users[username]) else None
    }

    /** `teamDb.createTeam` as the service means it: stores the team, roster included, under a
        fresh id and returns it with that id (`CreatedAsWritten` is the write as it stands).
        A team that would not reload through `Team.from` gives the generic error. */
    method CreateTeam(team: Team) returns (r: Result<Team, string>)
      requires Valid()
      modifies this
      ensures Valid()
      ensures old(nextTeamId) !in old(teams)
      ensures TeamLoads(team) ==>
        && r == Success(team.(id := Some(old(nextTeamId))))
        && teams == old(teams)[old(nextTeamId) := r.value]
        && nextTeamId == old(nextTeamId) + 1
      ensures !TeamLoads(team) ==> r == Failure(DatabaseError) && teams == old(teams) && nextTeamId == old(nextTeamId)
      ensures players == old(players) && coaches == old(coaches) && users == old(users) && nextUserId == old(nextUserId)
    {
      if !TeamLoads(team) {
        return Failure(DatabaseError);
      }
      var created := team.(id := Some(nextTeamId));
      teams := teams[nextTeamId := created];
      nextTeamId := nextTeamId + 1;
      r := Success(created);
    }

    /** `teamDb.joinTeam`: connects the player to the team and returns the reloaded team. */
    method JoinTeam(teamId: int, playerId: int) returns (r: Result<Team, string>)
      requires Valid()
      modifies this
      ensures Valid()
      ensures teamId in old(teams) && playerId in old(players) ==>
        && r == Success(Connect(old(teams[teamId]), old(players[playerId])))
        && teams == old(teams)[teamId := r.value]
      ensures !(teamId in old(teams) && playerId in old(players)) ==> r == Failure(DatabaseError) && teams == old(teams)
      ensures players == old(players) && coaches == old(coaches) && users == old(users)
      ensures nextTeamId == old(nextTeamId) && nextUserId == old(nextUserId)
    {
      if teamId in teams && playerId in players {
        var updated := Connect(teams[teamId], players[playerId]);
        assert forall q :: q in updated.players ==> q in teams[teamId].players || q == players[playerId];
        teams := teams[teamId := updated];
        r := Success(updated);
      } else {
        r := Failure(DatabaseError);
      }
    }

    /** `teamDb.leaveTeam`: disconnects the player from the team and returns the reloaded team. */
    method LeaveTeam(teamId: int, playerId: int) returns (r: Result<Team, string>)
      requires Valid()
      modifies this
      ensures Valid()
      ensures teamId in old(teams) ==>
        && r == Success(Disconnect(old(teams[teamId]), playerId))
        && teams == old(teams)[teamId := r.value]
      ensures teamId !in old(teams) ==> r == Failure(DatabaseError) && teams == old(teams)
      ensures players == old(players) && coaches == old(coaches) && users == old(users)
      ensures nextTeamId == old(nextTeamId) && nextUserId == old(nextUserId)
    {
      if teamId in teams {
        var updated := Disconnect(teams[teamId], playerId);
        teams := teams[teamId := updated];
        r := Success(updated);
      } else {
        r := Failure(DatabaseError);
      }
    }

    /** `teamDb.updateTeam` as the service means it: only the name and the location are written
        (`UpdateAsWritten` is the write as it stands). An empty name or location makes the
        reload through `Team.from` fail, which gives the generic error. */
    method UpdateTeam(id: int, teamName: string, location: string) returns (r: Result<Team, string>)
      requires Valid()
      modifies this
      ensures Valid()
      ensures id in old(teams) && teamName != "" && location != "" ==>
        && r == Success(old(teams[id]).(teamName := teamName, location := location))
        && teams == old(teams)[id := r.value]
      ensures !(id in old(teams) && teamName != "" && location != "") ==>
        r == Failure(DatabaseError) && unchanged(this)
      ensures players == old(players) && coaches == old(coaches) && users == old(users)
      ensures nextTeamId == old(nextTeamId) && nextUserId == old(nextUserId)
    {
      if id in teams && teamName != "" && location != "" {
        var updated := teams[id].(teamName := teamName, location := location);
        teams := teams[id := updated];
        r := Success(updated);
      } else {
        r := Failure(DatabaseError);
      }
    }

    /** `userDb.createUser`: stores the user under its username with a fresh id; a taken
        username violates the store's uniqueness constraint, and a user that would not reload
        through `User.from` gives the generic error too. */
    method CreateUser(user: User) returns (r: Result<User, string>)
      requires Valid()
      modifies this
      ensures Valid()
      ensures user.username !in old(users) && UserLoads(user) ==>
        && r == Success(user.(id := Some(old(nextUserId))))
        && users == old(users)[user.username := r.value]
        && nextUserId == old(nextUserId) + 1
      ensures !(user.username !in old(users) && UserLoads(user)) ==>
        r == Failure(DatabaseError) && users == old(users) && nextUserId == old(nextUserId)
      ensures teams == old(teams) && players == old(players) && coaches == old(coaches) && nextTeamId == old(nextTeamId)
    {
      if user.username !in users && UserLoads(user) {
        var created := user.(id := Some(nextUserId));
        users := users[user.username := created];
        nextUserId := nextUserId + 1;
        r := Success(created);
      } else {
        r := Failure(DatabaseError);
      }
    }
  }
}
