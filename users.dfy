/** The `users` table and the admin handlers that change it
    (backend/controllers/userController.js). */
module UserController {
  import opened Js
  import opened Sqlite

  /** One row of `users`. The password column holds a bcrypt hash, which is
      an input of the model. */
  datatype UserRow = UserRow(
    username: string,
    passwordHash: string,
    role: JsValue,
    level: JsValue,
    branchId: JsValue,
    regionalId: JsValue,
    isActive: JsValue)

  /** A row of the `getUsers` listing: every column except the password. */
  datatype PublicUser = PublicUser(
    id: int,
    username: string,
    role: JsValue,
    level: JsValue,
    branchId: JsValue,
    regionalId: JsValue,
    isActive: JsValue)

  /** The roles `updateUserRole` accepts. `merchant` is not among them. */
  const ValidRoles: seq<string> := ["finance", "partnership", "growth", "admin", "QC"]

  /** `validRoles.includes(role)`: strict equality, so only a string can match. */
  predicate IsValidRole(role: JsValue): (b: bool)
    ensures b <==> exists r :: r in ValidRoles && role == Text(r)
  {
    role.Text? && role.s in ValidRoles
  }

  /** The UNIQUE constraint on `users.username`. */
  ghost predicate UniqueUsernames(rows: map<int, UserRow>) {
    forall a, b :: a in rows && b in rows && rows[a].username == rows[b].username ==> a == b
  }

  predicate UsernameTaken(rows: map<int, UserRow>, username: string) {
    exists id :: id in rows && rows[id].username == username
  }

  function Project(id: int, row: UserRow): PublicUser {
    PublicUser(id, row.username, row.role, row.level, row.branchId, row.regionalId, row.isActive)
  }

  /** `getUsers`: the listing, keyed by user id. */
  function ListUsers(rows: map<int, UserRow>): (r: map<int, PublicUser>)
    ensures r.Keys == rows.Keys
    ensures forall id :: id in r ==> r[id].id == id && r[id].username == rows[id].username
  {
    map id | id in rows :: Project(id, rows[id])
  }

  /** The listing never depends on the stored password hashes: two tables
      that differ only in their hashes list identically. */
  lemma ListingHidesPasswords(rows: map<int, UserRow>, rows': map<int, UserRow>)
    requires rows.Keys == rows'.Keys
    requires forall id :: id in rows ==> rows'[id] == rows[id].(passwordHash := rows'[id].passwordHash)
    ensures ListUsers(rows) == ListUsers(rows')
  {
  }

  /** `merchant`, although offered by the admin page, is refused. */
  lemma MerchantRoleRejected()
    ensures !IsValidRole(Text("merchant"))
    ensures forall r :: r in ValidRoles ==> IsValidRole(Text(r))
  {
  }

  /** The row `createUser` inserts: `branchId || null` and `regionalId || null`
      for the ids, and the column default TRUE (stored as 1) for `isActive`. */
  function NewRow(username: string, passwordHash: string, role: JsValue, level: JsValue,
                  branchId: JsValue, regionalId: JsValue): (r: UserRow)
    ensures r.username == username && r.passwordHash == passwordHash
    ensures r.isActive == Num(1) && Truthy(r.isActive)
    ensures !Truthy(branchId) ==> r.branchId == Null
    ensures !Truthy(regionalId) ==> r.regionalId == Null
    ensures Truthy(r.branchId) ==> Truthy(branchId)
    ensures Truthy(r.regionalId) ==> Truthy(regionalId)
    ensures !r.role.Num? && !r.level.Num?
  {
    UserRow(username, passwordHash, StoreText(role), StoreText(level),
            StoreInteger(OrNull(branchId)), StoreInteger(OrNull(regionalId)), Num(1))
  }

  datatype CreateReply = Created(message: string, userId: int) | CreateFailed(message: string)
  datatype StatusReply = StatusUpdated(message: string)
  datatype RoleReply = RoleUpdated(message: string) | InvalidRole(message: string) | UserNotFound(message: string)

  function CreateStatus(r: CreateReply): int {
    if r.Created? then 201 else 400
  }

  function RoleStatus(r: RoleReply): int {
    match r
    case RoleUpdated(_) => 200
    case InvalidRole(_) => 400
    case UserNotFound(_) => 404
  }

  /** The `users` table. `lastId` is the AUTOINCREMENT counter. */
  class UserTable {
    var rows: map<int, UserRow>
    var lastId: int

    ghost predicate Valid()
      reads this
    {
      && lastId >= 0
      && (forall id :: id in rows ==> 1 <= id <= lastId)
      && UniqueUsernames(rows)
    }

    constructor ()
      ensures Valid() && rows == map[] && lastId == 0
    {
      rows := map[];
      lastId := 0;
    }

    /** `createUser`: inserts a row; a taken username violates the UNIQUE
        constraint and inserts nothing. Falsy ids are stored as NULL. */
    method CreateUser(username: string, passwordHash: string, role: JsValue, level: JsValue,
                      branchId: JsValue, regionalId: JsValue) returns (reply: CreateReply)
      requires Valid()
      modifies this
      ensures Valid()
      ensures reply.CreateFailed? <==> UsernameTaken(old(rows), username)
      ensures reply.CreateFailed? ==> reply.message == "Failed to create user"
      ensures reply.CreateFailed? ==> rows == old(rows) && lastId == old(lastId)
      ensures reply.Created? ==>
        && reply.message == "User created successfully"
        && reply.userId == old(lastId) + 1 == lastId
        && reply.userId !in old(rows)
        && rows == old(rows)[reply.userId := NewRow(username, passwordHash, role, level, branchId, regionalId)]
      ensures reply.Created? && !Truthy(branchId) ==> rows[reply.userId].branchId == Null
      ensures reply.Created? && !Truthy(regionalId) ==> rows[reply.userId].regionalId == Null
    {
      if UsernameTaken(rows, username) {
        reply := CreateFailed("Failed to create user");
        return;
      }
      var id := lastId + 1;
      rows := rows[id := NewRow(username, passwordHash, role, level, branchId, regionalId)];
      lastId := id;
      reply := Created("User created successfully", id);
    }

    /** `updateUserStatus`: sets `isActive` of the matching row, if any, and
        reports success whether or not a row matched. */
    method UpdateUserStatus(id: int, isActive: JsValue) returns (reply: StatusReply)
      requires Valid()
      modifies this
      ensures Valid()
      ensures reply == StatusUpdated("User status updated successfully.")
      ensures lastId == old(lastId)
      ensures id in old(rows) ==> rows == old(rows)[id := old(rows)[id].(isActive := StoreInteger(isActive))]
      ensures id !in old(rows) ==> rows == old(rows)
    {
      if id in rows {
        rows := rows[id := rows[id].(isActive := StoreInteger(isActive))];
      }
      reply := StatusUpdated("User status updated successfully.");
    }

    /** `updateUserRole`: an invalid role is refused before any write; an id
        with no row gives 404; otherwise only that row's role changes. */
    method UpdateUserRole(id: int, role: JsValue) returns (reply: RoleReply)
      requires Valid()
      modifies this
      ensures Valid()
      ensures lastId == old(lastId)
      ensures !IsValidRole(role) ==> reply == InvalidRole("Invalid role provided.")
      ensures IsValidRole(role) && id !in old(rows) ==> reply == UserNotFound("User not found.")
      ensures reply.RoleUpdated? <==> IsValidRole(role) && id in old(rows)
      ensures reply.RoleUpdated? ==> rows == old(rows)[id := old(rows)[id].(role := role)]
      ensures !reply.RoleUpdated? ==> rows == old(rows)
    {
      if !IsValidRole(role) {
        return InvalidRole("Invalid role provided.");
      }
      if id !in rows {
        return UserNotFound("User not found.");
      }
      rows := rows[id := rows[id].(role := role)];
      reply := RoleUpdated("User role updated successfully.");
    }

    /** `getUsers`. */
    method GetUsers() returns (users: map<int, PublicUser>)
      ensures users == ListUsers(rows)
    {
      users := ListUsers(rows);
    }
  }
}
