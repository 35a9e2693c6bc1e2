/** The Parent entity: a user with a sex. */
module ParentModel {
  import opened Wrappers
  import opened Validation
  import opened UserModel

  datatype Parent = Parent(id: Option<int>, user: User, sex: string)

  /** A stored parent row with its eagerly loaded user row. */
  datatype ParentRow = ParentRow(id: int, user: UserRow, sex: string)

  const UserRequired := "Parent must have a user"
  const SexRequired := "Parent must have a gender"

  /** The checks of `validate`, in order. */
  function ParentChecks(user: Option<User>, sex: string): seq<Check> {
    [ Check(Present(user), UserRequired),
      Check(TruthyString(sex), SexRequired) ]
  }

  /** `new Parent({...})`: validate, then copy every field. */
  function NewParent(id: Option<int>, user: Option<User>, sex: string): (r: Result<Parent, string>)
    ensures r.Success? <==> user.Some? && sex != ""
    ensures r.Success? ==> r.value == Parent(id, user.value, sex)
    ensures user.None? ==> r == Failure(UserRequired)
    ensures user.Some? && sex == "" ==> r == Failure(SexRequired)
  {
    var checks := ParentChecks(user, sex);
    assert !checks[0].passes ==> FailsFirstAt(checks, 0);
    assert !checks[1].passes ==> checks[0].passes ==> FailsFirstAt(checks, 1);
    match FirstFailure(checks)
    case Some(message) => Failure(message)
    case None =>
      assert checks[0].passes;
      Success(Parent(id, user.value, sex))
  }

  /** `parent.equals(other)`: ids, sex, and users by `User.equals`. */
  function ParentEquals(a: Parent, b: Parent): (r: bool)
    ensures r <==> a == b
  {
    a.id == b.id && a.sex == b.sex && UserEquals(a.user, b.user)
  }

  /** `Parent.from(row)`: the user through `User.from`, then the validating constructor. */
  function ParentFrom(row: ParentRow): (r: Result<Parent, string>)
    ensures r.Success? <==> UserFrom(row.user).Success? && row.sex != ""
    ensures r.Success? ==> r.value == Parent(Some(row.id), UserFrom(row.user).value, row.sex)
    ensures UserFrom(row.user).Failure? ==> r.Failure? && r.error == UserFrom(row.user).error
  {
    var user :- UserFrom(row.user);
    NewParent(Some(row.id), Some(user), row.sex)
  }
}
