/** The User entity: an immutable record whose constructor validates five string fields. */
module UserModel {
  import opened Wrappers
  import opened Validation

  /** A constructed user; `id` is absent until the store assigns one. */
  datatype User = User(
    id: Option<int>,
    username: string,
    firstName: string,
    lastName: string,
    email: string,
    password: string)

  /** A stored user row. It also carries the role, which the entity does not keep. */
  datatype UserRow = UserRow(
    id: int,
    username: string,
    firstName: string,
    lastName: string,
    email: string,
    password: string,
    role: string)

  const UsernameRequired := "User must have a username"
  const FirstNameRequired := "User must have a first name"
  const LastNameRequired := "User must have a last name"
  const EmailRequired := "User must have an email"
  const PasswordRequired := "User must have a password"

  /** The checks of `validate`, in the order they run. There is no role check. */
  function UserChecks(username: string, firstName: string, lastName: string, email: string, password: string): seq<Check> {
    [ Check(TruthyString(username), UsernameRequired),
      Check(TruthyString(firstName), FirstNameRequired),
      Check(TruthyString(lastName), LastNameRequired),
      Check(TruthyString(email), EmailRequired),
      Check(TruthyString(password), PasswordRequired) ]
  }

  /** `new User({...})`: validate, then copy every field. */
  function NewUser(id: Option<int>, username: string, firstName: string, lastName: string, email: string, password: string): (r: Result<User, string>)
    ensures r.Success? <==> username != "" && firstName != "" && lastName != "" && email != "" && password != ""
    ensures r.Success? ==> r.value == User(id, username, firstName, lastName, email, password)
    ensures username == "" ==> r == Failure(UsernameRequired)
    ensures username != "" && firstName == "" ==> r == Failure(FirstNameRequired)
    ensures username != "" && firstName != "" && lastName == "" ==> r == Failure(LastNameRequired)
    ensures username != "" && firstName != "" && lastName != "" && email == "" ==> r == Failure(EmailRequired)
    ensures username != "" && firstName != "" && lastName != "" && email != "" && password == "" ==> r == Failure(PasswordRequired)
  {
    var checks := UserChecks(username, firstName, lastName, email, password);
    assert !checks[0].passes ==> FailsFirstAt(checks, 0);
    assert !checks[1].passes ==> checks[0].passes ==> FailsFirstAt(checks, 1);
    assert !checks[2].passes ==> checks[0].passes && checks[1].passes ==> FailsFirstAt(checks, 2);
    assert !checks[3].passes ==> checks[0].passes && checks[1].passes && checks[2].passes ==> FailsFirstAt(checks, 3);
    assert !checks[4].passes ==> checks[0].passes && checks[1].passes && checks[2].passes && checks[3].passes ==> FailsFirstAt(checks, 4);
    match FirstFailure(checks)
    case Some(message) => Failure(message)
    case None => Success(User(id, username, firstName, lastName, email, password))
  }

  /** `user.equals(other)`: every field compared with `===`. */
  function UserEquals(a: User, b: User): (r: bool)
    ensures r <==> a == b
  {
    a.id == b.id && a.username == b.username && a.firstName == b.firstName &&
    a.lastName == b.lastName && a.email == b.email && a.password == b.password
  }

  /** `User.from(row)`: the validating constructor applied to the row's six entity fields. */
  function UserFrom(row: UserRow): (r: Result<User, string>)
    ensures r.Success? <==> row.username != "" && row.firstName != "" && row.lastName != "" && row.email != "" && row.password != ""
    ensures r.Success? ==> r.value == User(Some(row.id), row.username, row.firstName, row.lastName, row.email, row.password)
  {
    NewUser(Some(row.id), row.username, row.firstName, row.lastName, row.email, row.password)
  }
}
