/** The players page: every player is shown with the teams whose roster lists it, and each
    row shows the player's name and a team cell. */
module PlayersPage {
  import opened Seqs
  import opened FrontendTypes

  /** `team.players.some(p => p.id === playerId)`. */
  predicate OnRoster(t: Team, playerId: int) {
    exists i :: 0 <= i < |t.players| && t.players[i].id == playerId
  }

  /** The teams, in their fetched order, whose roster lists the player. */
  function TeamsOf(teams: seq<Team>, playerId: int): (r: seq<Team>)
    ensures forall t :: t in r <==> t in teams && OnRoster(t, playerId)
    ensures IsSubsequence(r, teams)
  {
    Filter(teams, t => OnRoster(t, playerId))
  }

  /** The join of the fetch effect: each player, in order, with its `teams` replaced by the
      teams listing it; nothing else about the player changes. */
  function PlayersWithTeams(players: seq<Player>, teams: seq<Team>): (r: seq<Player>)
    ensures |r| == |players|
    ensures forall i :: 0 <= i < |r| ==> r[i].(teams := players[i].teams) == players[i]
    ensures forall i :: 0 <= i < |r| ==>
      forall t :: t in r[i].teams <==> t in teams && OnRoster(t, players[i].id)
    ensures forall i :: 0 <= i < |r| ==> IsSubsequence(r[i].teams, teams)
    ensures forall i :: 0 <= i < |r| ==> r[i].teams == TeamsOf(teams, players[i].id)
  {
    seq(|players|, i requires 0 <= i < |players| => players[i].(teams := TeamsOf(teams, players[i].id)))
  }

  /** A team appears in a player's cell exactly when the player is on its roster, so a team
      and a player agree about membership after the join. */
  lemma JoinAgreesWithRosters(players: seq<Player>, teams: seq<Team>, i: int, t: Team)
    requires 0 <= i < |players| && t in teams
    ensures t in PlayersWithTeams(players, teams)[i].teams <==> OnRoster(t, players[i].id)
  {
  }

  /** The name cell: first and last name with one space between. */
  function NameCell(p: Player): (r: string)
    ensures |r| == |p.user.firstName| + 1 + |p.user.lastName|
    ensures r[..|p.user.firstName|] == p.user.firstName && r[|p.user.firstName|] == ' '
    ensures r[|p.user.firstName| + 1..] == p.user.lastName
  {
    p.user.firstName + " " + p.user.lastName
  }

  function TeamNames(teams: seq<Team>): (r: seq<string>)
    ensures |r| == |teams| && forall i :: 0 <= i < |teams| ==> r[i] == teams[i].teamName
  {
    seq(|teams|, i requires 0 <= i < |teams| => teams[i].teamName)
  }

  const NoTeam := "No Team"

  /** The team cell: "No Team" when the player has no team, otherwise the team names joined
      with ", ". */
  function TeamCell(teams: seq<Team>): (r: string)
    ensures teams == [] ==> r == NoTeam
    ensures |teams| == 1 ==> r == teams[0].teamName
    ensures |teams| >= 2 ==>
      r == TeamCell(teams[..|teams| - 1]) + ", " + teams[|teams| - 1].teamName
  {
    if teams == [] then NoTeam
    else
      var names := TeamNames(teams);
      if |teams| >= 2 then
        var init := teams[..|teams| - 1];
        assert names == TeamNames(init) + [teams[|teams| - 1].teamName];
        JoinSnoc(TeamNames(init), teams[|teams| - 1].teamName, ", ");
        Join(names, ", ")
      else
        Join(names, ", ")
  }
}
