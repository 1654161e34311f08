/** The login decision and the identity claims it signs
    (backend/controllers/authController.js). The bcrypt comparison is a
    parameter; JWT signing is represented by the request handed to it. */
module AuthController {
  import opened Js
  import opened UserController

  /** The identity claims carried by the session token and trusted by the
      dashboard handlers as `req.user`. */
  datatype Claims = Claims(
    id: int,
    username: string,
    role: JsValue,
    level: JsValue,
    branchId: JsValue,
    regionalId: JsValue)

  /** Result of `SELECT * FROM users WHERE username = ?`. */
  datatype UserLookup = LookupFailed(error: string) | NoSuchUser | Found(id: int, row: UserRow)

  /** A lookup that the table can have produced (a failed lookup stands for
      a database error and is always possible). */
  ghost predicate IsLookupOf(rows: map<int, UserRow>, username: string, l: UserLookup) {
    match l
    case LookupFailed(_) => true
    case NoSuchUser => !UsernameTaken(rows, username)
    case Found(id, row) => id in rows && rows[id] == row && row.username == username
  }

  /** What is handed to `jwt.sign`: the claims and the lifetime option. */
  datatype SignRequest = SignRequest(claims: Claims, expiresIn: string)

  const SessionLifetime := "8h"
  const InvalidCredentialsMessage := "Invalid credentials or user is inactive"

  datatype LoginReply =
    | LoggedIn(message: string, token: SignRequest, user: Claims)
    | InvalidCredentials(message: string)
    | LoginDatabaseError(message: string, error: string)

  function LoginStatus(r: LoginReply): int {
    match r
    case LoggedIn(_, _, _) => 200
    case InvalidCredentials(_) => 401
    case LoginDatabaseError(_, _) => 500
  }

  /** The claims copied from a stored row: the password hash and the
      active flag are not among them. */
  function ClaimsOf(id: int, row: UserRow): (c: Claims)
    ensures c.id == id && c.username == row.username && c.role == row.role
    ensures c.level == row.level && c.branchId == row.branchId && c.regionalId == row.regionalId
  {
    Claims(id, row.username, row.role, row.level, row.branchId, row.regionalId)
  }

  /** `loginUser` once the row has been looked up. `passwordMatches` stands
      for `bcrypt.compareSync(password, hash)`. */
  function Login(l: UserLookup, password: string, passwordMatches: (string, string) -> bool): (r: LoginReply)
    ensures r.LoginDatabaseError? <==> l.LookupFailed?
    ensures r.LoggedIn? <==>
      l.Found? && Truthy(l.row.isActive) && passwordMatches(password, l.row.passwordHash)
    ensures r.LoggedIn? ==> r.token == SignRequest(ClaimsOf(l.id, l.row), SessionLifetime)
    ensures r.LoggedIn? ==> r.user == r.token.claims && r.message == "Login successful"
    ensures r.InvalidCredentials? ==> r == InvalidCredentials(InvalidCredentialsMessage)
  {
    match l
    case LookupFailed(e) => LoginDatabaseError("Database error", e)
    case NoSuchUser => InvalidCredentials(InvalidCredentialsMessage)
    case Found(id, row) =>
      if Truthy(row.isActive) && passwordMatches(password, row.passwordHash) then
        var claims := ClaimsOf(id, row);
        LoggedIn("Login successful", SignRequest(claims, SessionLifetime), claims)
      else
        InvalidCredentials(InvalidCredentialsMessage)
  }

  /** Over the whole table: login succeeds iff a row with that username
      exists, is active, and its hash accepts the password. */
  lemma LoginDecision(rows: map<int, UserRow>, username: string, password: string,
                      passwordMatches: (string, string) -> bool, l: UserLookup)
    requires UniqueUsernames(rows)
    requires IsLookupOf(rows, username, l)
    requires !l.LookupFailed?
    ensures Login(l, password, passwordMatches).LoggedIn? <==>
      exists id :: id in rows && rows[id].username == username && Truthy(rows[id].isActive)
                   && passwordMatches(password, rows[id].passwordHash)
    ensures Login(l, password, passwordMatches).LoggedIn? ==>
      Login(l, password, passwordMatches).user == ClaimsOf(l.id, rows[l.id])
  {
  }

  /** A missing user, an inactive user and a wrong password are reported
      with the very same reply. */
  lemma FailuresIndistinguishable(l1: UserLookup, l2: UserLookup, p1: string, p2: string,
                                  m1: (string, string) -> bool, m2: (string, string) -> bool)
    requires Login(l1, p1, m1).InvalidCredentials? && Login(l2, p2, m2).InvalidCredentials?
    ensures Login(l1, p1, m1) == Login(l2, p2, m2)
    ensures LoginStatus(Login(l1, p1, m1)) == 401
  {
  }

  /** A database error is a 500, never confused with the 401 outcome. */
  lemma DatabaseErrorDistinct(e: string, password: string, passwordMatches: (string, string) -> bool)
    ensures LoginStatus(Login(LookupFailed(e), password, passwordMatches)) == 500
  {
  }

  /** The claims agree field by field with the admin listing of the same
      row, and neither carries the password. */
  lemma ClaimsMatchListing(id: int, row: UserRow, hash: string)
    ensures ClaimsOf(id, row) == ClaimsOf(id, row.(passwordHash := hash))
    ensures var p := Project(id, row);
      ClaimsOf(id, row) == Claims(p.id, p.username, p.role, p.level, p.branchId, p.regionalId)
  {
  }

  /** `loginUser` against the table: the lookup, then the decision. */
  method LoginUser(users: UserTable, username: string, password: string,
                   passwordMatches: (string, string) -> bool) returns (reply: LoginReply)
    requires users.Valid()
    ensures reply.LoggedIn? <==>
      exists id :: id in users.rows && users.rows[id].username == username
                   && Truthy(users.rows[id].isActive) && passwordMatches(password, users.rows[id].passwordHash)
    ensures !reply.LoginDatabaseError?
  {
    var l: UserLookup;
    if UsernameTaken(users.rows, username) {
      var id :| id in users.rows && users.rows[id].username == username;
      l := Found(id, users.rows[id]);
    } else {
      l := NoSuchUser;
    }
    LoginDecision(users.rows, username, password, passwordMatches, l);
    reply := Login(l, password, passwordMatches);
  }
}
