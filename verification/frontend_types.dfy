/** The shapes the front end receives as JSON: players, teams and matches as plain records.
    A player lists its teams and a team its players. */
module FrontendTypes {

  datatype User = User(username: string, firstName: string, lastName: string, email: string)

  datatype Player = Player(id: int, user: User, position: string, age: int, teams: seq<Team>)

  datatype Team = Team(id: int, teamName: string, location: string, players: seq<Player>)

  /** `dateTime` is the ISO string the API sends. */
  datatype Match = Match(id: int, dateTime: string, location: string, teams: seq<Team>)
}
