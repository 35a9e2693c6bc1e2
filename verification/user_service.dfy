/** The user service: registration with a duplicate-username check and password hashing. */
module UserService {
  import opened Wrappers
  import opened UserModel
  import opened Store

  datatype Role = Admin | PlayerRole | CoachRole

  /** A registration request. The role may be absent; missing string fields are not modelled. */
  datatype UserInput = UserInput(
    username: string,
    firstName: string,
    lastName: string,
    email: string,
    password: string,
    role: Option<Role>)

  function AlreadyRegistered(username: string): string {
    "User with username " + username + " is already registered."
  }

  /** `getUserByUsername`: `None` (null) for an unknown username rather than an error. */
  function GetUserByUsername(db: Database, username: string): (r: Option<User>)
    reads db
    requires db.Valid()
    ensures r.None? <==> username !in db.users
    ensures r.Some? ==> r.value.username == username && r.value == db.users[username]
  {
    db.GetUserByUsername(username)
  }

  /** What `createUser` decides from the registered users: the user it writes (still without
      an id) or the error it throws. `hash` stands for bcrypt's salted hash. */
  function PlanUser(users: map<string, User>, input: UserInput, hash: string -> string): (r: Result<User, string>)
    ensures input.username in users ==> r == Failure(AlreadyRegistered(input.username))
    ensures input.username !in users ==>
      (r.Success? <==> input.username != "" && input.firstName != "" && input.lastName != "" &&
                       input.email != "" && hash(input.password) != "")
    ensures r.Success? ==>
      r.value == User(None, input.username, input.firstName, input.lastName, input.email, hash(input.password))
    ensures input.username !in users && input.username == "" ==> r == Failure(UsernameRequired)
    ensures input.username !in users && input.username != "" && input.firstName == "" ==> r == Failure(FirstNameRequired)
    ensures input.username !in users && input.username != "" && input.firstName != "" && input.lastName == "" ==>
      r == Failure(LastNameRequired)
    ensures (input.username !in users && input.username != "" && input.firstName != "" && input.lastName != "" &&
             input.email == "") ==> r == Failure(EmailRequired)
    ensures (input.username !in users && input.username != "" && input.firstName != "" && input.lastName != "" &&
             input.email != "" && hash(input.password) == "") ==> r == Failure(PasswordRequired)
  {
    if input.username in users then Failure(AlreadyRegistered(input.username))
    else NewUser(None, input.username, input.firstName, input.lastName, input.email, hash(input.password))
  }

  /** The duplicate check comes before validation: a taken username is reported even when
      other fields are empty. */
  lemma DuplicateCheckedFirst(users: map<string, User>, input: UserInput, hash: string -> string)
    requires input.username in users
    ensures PlanUser(users, input, hash).Failure?
    ensures PlanUser(users, input, hash).error == "User with username " + input.username + " is already registered."
  {
  }

  /** Validation sees the hash, not the plaintext: an empty password is accepted whenever
      its hash is non-empty, as a bcrypt hash always is. */
  lemma PasswordCheckedAfterHashing(users: map<string, User>, input: UserInput, hash: string -> string)
    requires input.username !in users
    requires input.username != "" && input.firstName != "" && input.lastName != "" && input.email != ""
    requires input.password == "" && hash("") != ""
    ensures PlanUser(users, input, hash).Success?
    ensures PlanUser(users, input, hash).value.password == hash("")
  {
  }

  /** The role of the request plays no part in registration. */
  lemma RoleIgnored(users: map<string, User>, input: UserInput, role: Option<Role>, hash: string -> string)
    ensures PlanUser(users, input.(role := role), hash) == PlanUser(users, input, hash)
  {
  }

  /** `createUser`: look the username up, hash the password, construct the User (which validates),
      then write it. Nothing is written on an error path; the stored password is the hash. */
  method CreateUser(db: Database, input: UserInput, hash: string -> string) returns (r: Result<User, string>)
    requires db.Valid()
    modifies db
    ensures db.Valid()
    ensures var plan := PlanUser(old(db.users), input, hash);
      && (plan.Failure? ==> r == plan && unchanged(db))
      && (plan.Success? ==>
            && r == Success(plan.value.(id := Some(old(db.nextUserId))))
            && r.value.password == hash(input.password)
            && db.users == old(db.users)[input.username := r.value]
            && db.teams == old(db.teams) && db.players == old(db.players) && db.coaches == old(db.coaches))
  {
    var existing := db.GetUserByUsername(input.username);
    if existing.Some? {
      return Failure(AlreadyRegistered(input.username));
    }
    var hashedPassword := hash(input.password);
    var user := NewUser(None, input.username, input.firstName, input.lastName, input.email, hashedPassword);
    if user.Failure? {
      return Failure(user.error);
    }
    r := db.CreateUser(user.value);
  }
}
