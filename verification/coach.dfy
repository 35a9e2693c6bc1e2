/** The Coach entity: a user with a rating and years of experience. */
module CoachModel {
  import opened Wrappers
  import opened Validation
  import opened UserModel

  datatype Coach = Coach(id: Option<int>, user: User, rating: int, experience: int)

  /** A stored coach row with its eagerly loaded user row. */
  datatype CoachRow = CoachRow(id: int, user: UserRow, rating: int, experience: int)

  const UserRequired := "Coach must have a user"
  const RatingRequired := "Coach must have a rating"
  const ExperienceRequired := "Coach must have an experience"

  /** The checks of `validate`, in order; a rating or experience of 0 counts as missing. */
  function CoachChecks(user: Option<User>, rating: int, experience: int): seq<Check> {
    [ Check(Present(user), UserRequired),
      Check(TruthyNumber(rating), RatingRequired),
      Check(TruthyNumber(experience), ExperienceRequired) ]
  }

  /** `new Coach({...})`: validate, then copy every field. The user's own fields are not re-checked. */
  function NewCoach(id: Option<int>, user: Option<User>, rating: int, experience: int): (r: Result<Coach, string>)
    ensures r.Success? <==> user.Some? && rating != 0 && experience != 0
    ensures r.Success? ==> r.value == Coach(id, user.value, rating, experience)
    ensures user.None? ==> r == Failure(UserRequired)
    ensures user.Some? && rating == 0 ==> r == Failure(RatingRequired)
    ensures user.Some? && rating != 0 && experience == 0 ==> r == Failure(ExperienceRequired)
  {
    var checks := CoachChecks(user, rating, experience);
    assert !checks[0].passes ==> FailsFirstAt(checks, 0);
    assert !checks[1].passes ==> checks[0].passes ==> FailsFirstAt(checks, 1);
    assert !checks[2].passes ==> checks[0].passes && checks[1].passes ==> FailsFirstAt(checks, 2);
    match FirstFailure(checks)
    case Some(message) => Failure(message)
    case None =>
      assert checks[0].passes;
      Success(Coach(id, user.value, rating, experience))
  }

  /** `coach.equals(other)`: ids, users by `User.equals`, rating and experience. */
  function CoachEquals(a: Coach, b: Coach): (r: bool)
    ensures r <==> a == b
  {
    a.id == b.id && UserEquals(a.user, b.user) && a.rating == b.rating && a.experience == b.experience
  }

  /** `Coach.from(row)`: the user through `User.from`, then the validating constructor. */
  function CoachFrom(row: CoachRow): (r: Result<Coach, string>)
    ensures r.Success? <==> UserFrom(row.user).Success? && row.rating != 0 && row.experience != 0
    ensures r.Success? ==> r.value == Coach(Some(row.id), UserFrom(row.user).value, row.rating, row.experience)
    ensures UserFrom(row.user).Failure? ==> r.Failure? && r.error == UserFrom(row.user).error
  {
    var user :- UserFrom(row.user);
    NewCoach(Some(row.id), Some(user), row.rating, row.experience)
  }
}
