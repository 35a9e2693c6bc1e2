/** The Player entity: a user with an age and a position. */
module PlayerModel {
  import opened Wrappers
  import opened Validation
  import opened UserModel

  datatype Player = Player(id: Option<int>, user: User, age: int, position: string)

  /** A stored player row with its eagerly loaded user row. */
  datatype PlayerRow = PlayerRow(id: int, user: UserRow, age: int, position: string)

  const UserRequired := "Player must have a user"
  const AgeRequired := "Player must have an age"
  const PositionRequired := "Player must have a position"

  /** The checks of `validate`, in order; an age of 0 counts as missing. */
  function PlayerChecks(user: Option<User>, age: int, position: string): seq<Check> {
    [ Check(Present(user), UserRequired),
      Check(TruthyNumber(age), AgeRequired),
      Check(TruthyString(position), PositionRequired) ]
  }

  /** `new Player({...})`: validate, then copy every field. */
  function NewPlayer(id: Option<int>, user: Option<User>, age: int, position: string): (r: Result<Player, string>)
    ensures r.Success? <==> user.Some? && age != 0 && position != ""
    ensures r.Success? ==> r.value == Player(id, user.value, age, position)
    ensures user.None? ==> r == Failure(UserRequired)
    ensures user.Some? && age == 0 ==> r == Failure(AgeRequired)
    ensures user.Some? && age != 0 && position == "" ==> r == Failure(PositionRequired)
  {
    var checks := PlayerChecks(user, age, position);
    assert !checks[0].passes ==> FailsFirstAt(checks, 0);
    assert !checks[1].passes ==> checks[0].passes ==> FailsFirstAt(checks, 1);
    assert !checks[2].passes ==> checks[0].passes && checks[1].passes ==> FailsFirstAt(checks, 2);
    match FirstFailure(checks)
    case Some(message) => Failure(message)
    case None =>
      assert checks[0].passes;
      Success(Player(id, user.value, age, position))
  }

  /** `player.equals(other)`: ids, users by `User.equals`, age and position. */
  function PlayerEquals(a: Player, b: Player): (r: bool)
    ensures r <==> a == b
  {
    a.id == b.id && UserEquals(a.user, b.user) && a.age == b.age && a.position == b.position
  }

  /** `Player.from(row)`: the user through `User.from`, then the validating constructor. */
  function PlayerFrom(row: PlayerRow): (r: Result<Player, string>)
    ensures r.Success? <==> UserFrom(row.user).Success? && row.age != 0 && row.position != ""
    ensures r.Success? ==> r.value == Player(Some(row.id), UserFrom(row.user).value, row.age, row.position)
    ensures UserFrom(row.user).Failure? ==> r.Failure? && r.error == UserFrom(row.user).error
  {
    var user :- UserFrom(row.user);
    NewPlayer(Some(row.id), Some(user), row.age, row.position)
  }
}
