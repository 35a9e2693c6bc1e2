# Sports team administration: a Dafny model of its domain rules

The application keeps users, coaches, players, parents, teams and matches. The back end
validates every entity in its constructor. The team and user services then check their
preconditions in a fixed order before each store write. The front end filters and joins the
lists it fetches. This project models three parts of it:

- **Entities** (`UserModel`, `CoachModel`, `PlayerModel`, `ParentModel`, `TeamModel`, `MatchModel`).
  Each entity is an immutable datatype with the following operations:
  - A `Result`-returning constructor that runs the source's ordered "is this field falsy?"
    checks. `Validation.FirstFailure` is the shared reference for "the first failing check
    decides the message". JavaScript truthiness is written out: a string is falsy when empty,
    a number when 0, a reference when absent. An empty array is truthy.
  - Structural equality.
  - Reconstruction from a stored row.
- **Services** (`TeamService`, `UserService`) over an abstract store (`Store.Database`). The
  store is a class whose map fields stand for the team, player, coach and user tables. Every
  read in the data-access layer rebuilds its row through the entity's `from`. The store's
  invariant therefore requires every stored row to pass validation (`TeamLoads`, `CoachLoads`,
  `PlayerLoads`, `UserLoads`), and a write whose row would not reload gives the generic database error.
  - `createTeam` loops over the requested player ids, then filters the lookups.
  - Every service is proved against a specification function (`PlanTeam`, `PlanUser`) or
    against an explicit statement of the new store.
  - The store is untouched on every error path.
- **Front-end list logic** (`FrontendTypes`, `MatchOverview`, `PlayersPage`):
  - the capped two-team selection and the filter toggle;
  - the match filter;
  - the guard of "add match";
  - the player-to-teams join and the team cell of the players table.

Bcrypt's hash is a parameter `hash: string -> string`. The date comparison of the match filter
is a parameter `onDate`. The helper modules `Wrappers` (Option/Result) and `Seqs` (filter,
subsequence, join and mapping with failure) hold generic sequence facts.

## Model

| member | source | states |
|---|---|---|
| Validation.FirstFailure | back-end/domain/model/user.ts:48-62 | The result is empty exactly when every check passes. Otherwise it is the message of the first failing check, whichever later checks fail too. |
| UserModel.NewUser | back-end/domain/model/user.ts:11-28 | Succeeds iff username, first name, last name, email and password are all non-empty. On success every field, the optional id included, is copied unchanged. Each failure gives the message of the first empty field, in the order username, first name, last name, email, password (lines 48-62). There is no role check. |
| UserModel.UserEquals | back-end/domain/model/user.ts:30-39 | True iff the two users are identical in all six fields. |
| UserModel.UserFrom | back-end/domain/model/user.ts:66-68 | Fails exactly when the constructor would. On success the user carries the row's id and its five other fields. |
| CoachModel.NewCoach | back-end/domain/model/coach.ts:11-24 | Succeeds iff the user is present and rating and experience are non-zero. On success the fields are copied. The messages come in the order user, rating, experience (lines 40-48). A zero rating is rejected. |
| CoachModel.CoachEquals | back-end/domain/model/coach.ts:26-33 | True iff ids, users, ratings and experiences are equal. |
| CoachModel.CoachFrom | back-end/domain/model/coach.ts:53-55 | Succeeds iff `User.from` succeeds and rating and experience are non-zero. On success the user comes from `User.from` and id, rating and experience from the row. A user failure is passed through unchanged. |
| PlayerModel.NewPlayer | back-end/domain/model/player.ts:14-21 | Succeeds iff the user is present, the age is non-zero and the position is non-empty. On success the fields are copied. The messages come in the order user, age, position (lines 33-41). |
| PlayerModel.PlayerEquals | back-end/domain/model/player.ts:23-30 | True iff id, user, age and position are all equal, so a different age alone makes it false. |
| PlayerModel.PlayerFrom | back-end/domain/model/player.ts:44-51 | Succeeds iff `User.from` succeeds, the age is non-zero and the position is non-empty. Id, age and position are copied. A user failure is passed through. |
| ParentModel.NewParent | back-end/domain/model/parent.ts:10-21 | Succeeds iff the user is present and sex is non-empty. On success id, user and sex are stored unchanged. The missing-user message comes before the gender message (lines 36-41). |
| ParentModel.ParentEquals | back-end/domain/model/parent.ts:23-30 | True iff id, sex and user are all equal. |
| ParentModel.ParentFrom | back-end/domain/model/parent.ts:44-46 | Succeeds iff `User.from` succeeds and sex is non-empty. Id and sex are copied. A user failure is passed through. |
| TeamModel.NewTeam | back-end/domain/model/team.ts:15-23 | Succeeds iff name and location are non-empty, whatever the coach and roster (an empty roster included). On success all five fields are stored. The name message comes before the location message (lines 35-41). |
| TeamModel.RosterEvery | back-end/domain/model/team.ts:31 | The position-wise roster walk is true iff this roster is a prefix of the other. It throws (`None`) iff the other roster is a strict prefix of this one. |
| TeamModel.TeamEquals | back-end/domain/model/team.ts:25-33 | True iff id, name, location and coach are equal and this team's roster is a prefix of the other's. Extra trailing players of the other team are ignored. The call throws iff the details match and the other roster is a strict prefix of this one. |
| TeamModel.TeamEqualsAsymmetric | back-end/domain/model/team.ts:31 | With equal details and a strict-prefix roster, `a.equals(b)` is true while `b.equals(a)` throws. |
| TeamModel.TeamEqualsNotSymmetric | back-end/domain/model/team.ts:31 | A concrete pair: the same team with no players and with one player compares equal one way and throws the other way. |
| TeamModel.TeamEqualsIntended | back-end/domain/model/team.ts:25-33 | Team equality with rosters of equal length: true iff the two teams are identical. |
| TeamModel.TeamFrom | back-end/domain/model/team.ts:44-52 | Succeeds iff `Coach.from`, every `Player.from`, and the name and location checks succeed. Id, name and location are copied. The coach is the `Coach.from` result. The players keep count and order, each the `Player.from` of its row. A coach failure wins over every later failure. Next comes the error of the first failing player row, then the name message, then the location message. |
| MatchModel.NewMatch | back-end/domain/model/match.ts:15-28 | Succeeds iff the teams and the date are present and the location is non-empty. An empty team list is accepted, and neither the number of teams nor duplicates are checked. On success the fields are stored. The messages come in the order teams, date and time, location (lines 35-43). |
| MatchModel.MatchFrom | back-end/domain/model/match.ts:47-54 | Succeeds iff every `Team.from` succeeds and the location is non-empty. The teams keep count and order. Id, date and location are copied. A failing team row gives the error of the first such row. With every row valid, an empty location gives the location message. |
| Store.Connect | back-end/domain/data-access/team.db.ts:77-95 | After a join the player is on the roster. The old roster is a prefix of the new one, and nothing but the roster changes. A player already listed leaves the team as it was. Otherwise the player is appended. |
| Store.Disconnect | back-end/domain/data-access/team.db.ts:97-115 | After a leave no roster entry has that id. The new roster is an order-preserving subsequence that keeps every other player. Nothing but the roster changes. |
| Store.DisconnectUndoesConnect | back-end/domain/data-access/team.db.ts:77-115 | Leaving a team just joined, by a player not on it before, restores the team exactly. |
| Store.CreatedAsWritten | back-end/domain/data-access/team.db.ts:34-53 | The team written by `createTeam` as it stands has the new id and an empty roster. Everything else is as given. |
| Store.CreateDropsRoster | back-end/domain/data-access/team.db.ts:36-43 | For a non-empty roster, the created team differs from the requested one and has fewer players. |
| Store.UpdateAsWritten | back-end/domain/data-access/team.db.ts:55-75 | The update succeeds iff all of these hold: a coach is given; it carries the id of a stored coach; the team id is stored; and the updated team reloads through `Team.from` (line 71). The last condition means name and location are non-empty and the coach and players validate. Every failure is the generic database error. On success name and location are replaced, and the coach becomes the stored coach of that id. |
| Store.ServiceUpdateAlwaysFails | back-end/service/team.service.ts:94 | With the argument the team service builds (no coach), the update fails with the database error for every id. |
| Store.Database.GetTeamById | back-end/domain/data-access/team.db.ts:19-32 | Present iff the id is stored. It is then the stored team, carrying that id. |
| Store.Database.GetPlayerById | back-end/domain/data-access/player.db.ts:18-31 | Present iff the id is stored. It is then the stored player, carrying that id. |
| Store.Database.GetCoachById | back-end/domain/data-access/coach.db.ts:17-29 | Present iff the id is stored. It is then the stored coach, carrying that id. |
| Store.Database.GetUserByUsername | back-end/domain/data-access/user.db.ts:13-22 | Present iff the username is stored. It is then the stored user, carrying that username. |
| Store.Database.CreateTeam | back-end/domain/data-access/team.db.ts:34-53 | A team that reloads through `Team.from` is stored, roster included, under a fresh id and returned with it, and the id counter advances. Any other team gives the database error and nothing is written. Players, coaches and users are untouched. |
| Store.Database.JoinTeam | back-end/domain/data-access/team.db.ts:77-95 | With team and player stored, the stored team becomes `Connect` of the two and is returned. Otherwise the result is the database error and the teams are unchanged. Nothing else changes. |
| Store.Database.LeaveTeam | back-end/domain/data-access/team.db.ts:97-115 | With the team stored, the stored team becomes `Disconnect` of it and is returned. Otherwise the result is the database error. Nothing else changes. |
| Store.Database.UpdateTeam | back-end/domain/data-access/team.db.ts:55-75 | With the team stored and a non-empty name and location, only those two are replaced and the team is returned. A missing team, or an empty name or location (the reload at line 71 rejects it), gives the database error and changes nothing. |
| Store.Database.CreateUser | back-end/domain/data-access/user.db.ts:35-44 | A new username whose user reloads through `User.from` is stored with a fresh id, and the user is returned. A taken username, or a user that would not reload, gives the database error and writes nothing. Nothing else changes. |
| TeamService.ServiceError | back-end/service/team.service.ts:49-52 | The rethrown message is "Service error: " followed by the original message. |
| TeamService.PlanTeam | back-end/service/team.service.ts:16-53 | Every error carries the service prefix. The call succeeds iff all of these hold: the coach id is truthy and resolves; every player id is truthy and resolves; name and location are non-empty. The planned team has no id, the given name and location, the resolved coach, and the resolved players in request order. |
| TeamService.CreateTeamCheckOrder | back-end/service/team.service.ts:20-46 | The first failing check decides the error, in this order: coach id, coach lookup, player ids, player lookups, team name, team location. |
| TeamService.GetTeamById | back-end/service/team.service.ts:12-14 | Absent (null) iff the id is not stored, rather than an error. Otherwise it is the stored team. |
| TeamService.CreateTeam | back-end/service/team.service.ts:16-53 | The result is `PlanTeam` over the store. On any error the store is untouched, so there is no partial team. On success the planned team is stored under a fresh id and nothing else changes. |
| TeamService.JoinTeam | back-end/service/team.service.ts:55-69 | A missing team gives "Team not found" before the player is looked up. A missing player gives "Player not found". The store is unchanged on either error. Otherwise the player is on the returned and stored roster, and nothing else changes. |
| TeamService.LeaveTeam | back-end/service/team.service.ts:71-85 | Same lookups in the same order with the same errors, and the store is unchanged on error. Otherwise the player is on neither the returned nor the stored roster, and nothing else changes. |
| TeamService.UpdateTeam | back-end/service/team.service.ts:87-95 | A missing team gives "Team not found" and changes nothing. An empty name or location gives the store's database error and changes nothing. Otherwise only name and location change; coach and roster are kept. |
| UserService.GetUserByUsername | back-end/service/user.service.ts:14-16 | Absent (null) iff the username is not registered. Otherwise it is the stored user with that username. |
| UserService.PlanUser | back-end/service/user.service.ts:18-35 | A registered username gives the "already registered" error. Otherwise the call succeeds iff username, names, email and the hashed password are non-empty. The user then has the request's fields, the role dropped, and the hash as password. A failure gives the User validation message of the first empty field, in the order username, first name, last name, email, hashed password. |
| UserService.DuplicateCheckedFirst | back-end/service/user.service.ts:25-29 | A taken username is reported with "User with username X is already registered.", even when other fields are empty. |
| UserService.PasswordCheckedAfterHashing | back-end/service/user.service.ts:31-32 | Validation sees the hash, so an empty plaintext password with a non-empty hash is accepted and stored as that hash. |
| UserService.RoleIgnored | back-end/service/user.service.ts:18-24 | The role in the request does not affect the outcome. |
| UserService.CreateUser | back-end/service/user.service.ts:18-35 | The result is `PlanUser` over the store. On any error nothing is written. On success the stored and returned user's password is the hash of the given one, and no other table changes. |
| MatchOverview.Without | front-end/components/matches/MatchOverview.tsx:64 | The removed id is gone. Every other id keeps its membership, and order is preserved. |
| MatchOverview.ToggleSelection | front-end/components/matches/MatchOverview.tsx:61-67 | A selected team is removed. Otherwise the team is appended while fewer than two are selected. With two selected, a third team leaves the selection unchanged. A selection of at most two stays at most two. |
| MatchOverview.SelectionStaysCapped | front-end/components/matches/MatchOverview.tsx:61-67 | From at most two distinct ids, any sequence of clicks leaves at most two distinct ids. |
| MatchOverview.ToggleFilter | front-end/components/matches/MatchOverview.tsx:69-75 | The toggled id changes membership and every other id keeps its own. |
| MatchOverview.ToggleFilterTwiceRestores | front-end/components/matches/MatchOverview.tsx:69-75 | Toggling an absent id twice restores the original list exactly. |
| MatchOverview.FilterByTeams | front-end/components/matches/MatchOverview.tsx:41-45 | Keeps exactly the matches with some team in the filter, as an order-preserving subsequence. |
| MatchOverview.FilteredMatches | front-end/components/matches/MatchOverview.tsx:34-48 | Always an order-preserving subsequence of the matches. With both filters empty it is the input. A match is kept iff it is on the date (when a date is set) and has a filtered team (when the team filter is non-empty). |
| MatchOverview.HandleAddMatch | front-end/components/matches/MatchOverview.tsx:50-59 | Submits iff exactly two teams are selected and date and location are non-empty. It then sends those values and clears the three inputs, leaving the filter alone. Otherwise it alerts with the fixed message and changes nothing. |
| MatchOverview.SubmittedTeamsDistinct | front-end/components/matches/MatchOverview.tsx:50-67 | A selection built by clicks from empty is only ever submitted with two different teams. |
| MatchOverview.HandleClearFilter | front-end/components/matches/MatchOverview.tsx:77-80 | The date filter becomes empty and the team filter becomes empty. Nothing else changes. |
| MatchOverview.ClearFilterShowsAll | front-end/components/matches/MatchOverview.tsx:77-80 | After clearing, the filtered list is all matches. |
| PlayersPage.TeamsOf | front-end/pages/players/index.tsx:24 | A team is listed iff it is fetched and its roster has an entry with the player's id. The fetched order is kept. |
| PlayersPage.PlayersWithTeams | front-end/pages/players/index.tsx:23-26 | Same length and order as the players. Every field but `teams` is copied. `teams` holds exactly the fetched teams whose roster lists the player, in fetched order (it is `TeamsOf`, a subsequence of the fetched teams). |
| PlayersPage.JoinAgreesWithRosters | front-end/pages/players/index.tsx:23-26 | For a fetched team, it is in a player's list iff its roster lists that player. |
| PlayersPage.NameCell | front-end/pages/players/index.tsx:61 | The name cell is the first name, one space, then the last name. |
| PlayersPage.TeamCell | front-end/pages/players/index.tsx:63 | "No Team" for no teams. One team gives its name. Each further team appends ", " and its name. |

## Left out

- The date filter of the match overview compares `new Date(match.dateTime).toISOString()` with the chosen date. Time zones and ISO formatting are not modelled, so the comparison is the parameter `onDate`.
- Rendering is not modelled: the `toLocaleString` date, the " vs " team cell of the match table, and every React element.
- Numbers are integers. `NaN`, `undefined` and non-integer ages, ratings and experiences are not modelled.
- An `undefined` roster in the players table is not modelled: `Array.isArray` never fails on a sequence.
- Bcrypt's salted, asynchronous hash is the parameter `hash`. Salting makes the real hash non-deterministic; the model does not capture that.
- `Promise.all` in `createTeam` runs the player lookups concurrently. They are modelled in request order.
- Store.Database.CreateTeam: keeps the roster, as the service evidently intends. The write as it stands is `Store.CreatedAsWritten` (see Findings).
- Store.Database.UpdateTeam: writes only name and location, as the service evidently intends. The write as it stands is `Store.UpdateAsWritten` (see Findings).
- Store.Database.UpdateTeam: an empty name or location leaves the store unchanged. In the source the row is written first and only the reload fails, so the table then holds a team that every later read reports as the database error.
- Store.Database.CreateTeam and Store.Database.CreateUser: a row that would not reload is likewise not written, whereas the source writes it before the reload fails. The services never pass such a row.
- Store.Database.constructor: the seeded players and coaches must pass validation. Stored rows that fail validation, which the source reads as the database error, are not modelled.
- Store failures other than those shown are not modelled: a lost connection, a constraint violation on create. Each would surface as the generic database error.
- TeamService.CreateTeam: the final write is returned without `await` (team.service.ts:48). A store failure there therefore skips the `catch` and reaches the caller as the plain database error, without the "Service error: " prefix. The model returns the store's result unprefixed in the same way. The service's checks guarantee that the row reloads, so this path cannot arise in the model.
- Store.Database.JoinTeam: the team–player relation is taken as many-to-many, so joining changes only the target team. Stored player rows carry a single `teamId`. If the relation is one-to-many, `connect` moves the player, and its previous team's roster loses it; the model does not capture that.
- Store.Connect: the roster order after a join is assumed to be the old roster with the player appended. The reload (team.db.ts:86-89) has no `orderBy`, so the real order is the store's.
- TeamService.JoinTeam: inherits the two assumptions above about the relation and the roster order.
- UserService.PlanUser: the request's fields are optional in the source (types/index.ts:3-11), but the model takes them as strings. Two missing-field paths are therefore not modelled. A missing username makes the store lookup reject, giving the database error rather than a validation message (user.db.ts:13-21). A missing password makes `bcrypt.hash` reject at user.service.ts:31, before validation runs.
- `getAllTeams`, `getAllUsers` and `getUserById` are plain reads with nothing to state beyond the map itself.
- The coach, player, parent and match services are one-line pass-throughs to the store.
- HTTP controllers, the error middleware, JWT and seeding are not modelled. So are the front-end `fetch`/`sessionStorage` services and the other pages.
- The tests and the code disagree in four places; the model follows the code:
  - user.test.ts:56-60 expects a role check that the User constructor does not make (see `UserService.RoleIgnored`);
  - user.service.test.ts:53-59 expects a throw for an unknown username, but the service returns null;
  - user.service.test.ts:61-81 calls functions the user service does not define;
  - match.service.test.ts:92-103 calls functions the match service does not define.

## Findings

| source | as written | input that shows it | evidently intended | confidence | as-written member | corrected member |
|---|---|---|---|---|---|---|
| back-end/domain/model/team.ts:31 | `equals` walks only this team's roster, indexing the other's | `a` with no players and `b` equal to `a` plus one player: `a.equals(b)` is true and `b.equals(a)` throws a TypeError | equal only when the rosters have the same length and agree position by position | high, not executed | TeamModel.TeamEqualsNotSymmetric | TeamModel.TeamEqualsIntended |
| back-end/domain/data-access/team.db.ts:36-43 | `createTeam` writes coach, name and location only | a request naming one existing player: the service resolves it, and the created team has an empty roster | the resolved players are stored with the team | medium, not executed | Store.CreateDropsRoster | Store.Database.CreateTeam |
| back-end/service/team.service.ts:94 | the service passes `{ id, teamName, location }` to a function that reads `coach.id`; the call does not type-check against the `Team` parameter, so this arises only when the back end runs without type checking | any stored team id: the TypeError is caught and reported as "Database error. See server log for details." | name and location are updated | medium, not executed | Store.ServiceUpdateAlwaysFails | Store.Database.UpdateTeam |
