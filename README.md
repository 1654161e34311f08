# Dashboard portal access core, modelled in Dafny

The portal shows embedded analytics dashboards to signed-in staff and
merchants. This project models the part of its backend that decides who sees
what:

- **Login** (`loginUser`). A user row is accepted when it exists, is active
  and its password hash accepts the password. The identity claims signed into
  the session token are copied from that row.
- **Access resolver** (`getAvailableDashboards`, the lookup of
  `getDashboardEmbed`). A dashboard is visible to a role when
  `dashboard_permissions` grants it to that role or to `all`.
- **Scope parameter builder** (the `params` chain of `getDashboardEmbed`).
  The caller's level, role and stored branch or regional id choose the filter
  values signed into the embedding token. Only one case reads the request's
  query values.
- **Embedding payload**. The provider's dashboard id, the parameters, and an
  expiry ten minutes after the rounded clock reading.
- **Admin handlers**:
  - dashboards: `getDashboards`, `addDashboard`, `deleteDashboard`,
    `updateDashboardPermissions`;
  - users: `getUsers`, `createUser`, `updateUserStatus`, `updateUserRole`.
- **Slug backfill** (`backend/migrateSlug.js`). Every dashboard without a
  slug gets sixteen hex characters made from eight random bytes.

Layout, one module per file:

| file | module | contents |
|---|---|---|
| `wrappers.dfy` | `Wrappers` | `Option` |
| `js.dfy` | `Js` | JavaScript values, truthiness, driver binding, `String(n)`, `split(',')` and `join(',')` |
| `sqlite.dfy` | `Sqlite` | how a bound value is stored in an INTEGER or TEXT column |
| `hex.dfy` | `Hex` | `randomBytes(8).toString('hex')` |
| `users.dfy` | `UserController` | the `users` table as a class; its handlers are methods |
| `auth.dfy` | `AuthController` | the login decision and its claims |
| `scope_params.dfy` | `ScopeParams` | the `params` chain |
| `embed_token.dfy` | `EmbedToken` | the payload and its `exp` |
| `dashboard_catalog.dfy` | `DashboardCatalog` | both dashboard tables as a value, the resolver, and the updates as functions |
| `dashboard_controller.dfy` | `DashboardController` | the embed reply, and `DashboardStore`, the class whose methods are the dashboard handlers |
| `migrate_slug.dfy` | `SlugMigration` | the backfill script |

How the handlers are modelled:

- Handlers that read the database take the looked-up row as an input: a
  `Lookup` or `UserLookup` value that may also be a database error. A ghost
  predicate states which lookups a table can produce.
- Handlers that write are methods of `UserTable` or `DashboardStore`. Their
  `ensures` give the new tables as a function of the old ones. Lemmas about
  those functions state what the source promises.
- These stay outside the model and are passed in as parameters:
  - bcrypt: `passwordMatches`;
  - JWT signing: the `SignRequest` handed to it;
  - the clock: `nowMs`;
  - `crypto.randomBytes`: `Bytes8` values.

`DashboardStore` runs a corrected `updateDashboardPermissions` (see
Findings). An unknown id gets 404 and changes nothing. The code as written
inserts grants for any id; `DashboardCatalog.AfterRegrantAsWritten` models that
behaviour. `DashboardStore.Valid()` requires every grant to name an existing
dashboard, and it holds only because of the correction.
`DashboardStore.AddDashboard` promises that the new id gets exactly the listed
roles, and that promise rests on `Valid()`.

`exp` is `Math.round(Date.now() / 1000) + 600`. Calls within the same rounded
second get the same `exp` (`EmbedToken.SameSecondSameExpiry`). Across calls
`exp` never decreases, but it need not increase (`EmbedToken.ExpiryMonotone`).

## Model

| member | source | states |
|---|---|---|
| Js.Bind | backend/controllers/userController.js:33-35 | binding keeps a value's truthiness; `undefined` and booleans never reach a column as such |
| Js.DigitsRoundTrip | backend/controllers/dashboardController.js:53 | reading back the decimal digits of `String(n)` gives `n` |
| Js.IntToStringInjective | backend/controllers/dashboardController.js:53 | distinct integers give distinct `toString()` texts |
| Js.ToJsString | backend/controllers/dashboardController.js:53 | a truthy id never renders as the empty string |
| Js.SplitComma | backend/controllers/dashboardController.js:67-68 | `split(',')` gives at least one piece, and no piece contains a comma |
| Js.SplitJoin | backend/controllers/dashboardController.js:67-68 | joining the pieces of `split(',')` with commas gives the original text |
| Js.JoinSplit | backend/controllers/dashboardController.js:104 | splitting a comma-join of comma-free pieces gives those pieces back |
| Sqlite.ParseRendered | backend/database.js:20-21 | INTEGER affinity converts the text `String(n)` back to `n` |
| Sqlite.RenderParsed | backend/database.js:20-21 | any text that INTEGER affinity converts is exactly `String` of the stored number |
| Sqlite.StoreIntegerKeepsRendering | backend/database.js:30 | for the canonical integer texts modelled, storing an id in an INTEGER column never changes its `String` rendering; it changes truthiness only for the text `"0"` |
| Sqlite.StoreInteger | backend/database.js:20-21 | a stored value is never `undefined` or a boolean; a number is kept; text stays text only when it is not the rendering of an integer; converted text keeps its `String` rendering |
| Sqlite.StoreText | backend/database.js:18-19 | a TEXT column holds text or NULL: strings are kept, a number becomes text that parses back to it, and a truthy value stays truthy |
| Sqlite.StoreIntegerFalsy | backend/controllers/userController.js:21 | a falsy id stays falsy once stored |
| Hex.HexEncode | backend/controllers/dashboardController.js:116 | the hex text has two lower-case hex digits per byte |
| Hex.HexRoundTrip | backend/controllers/dashboardController.js:116 | decoding a slug gives back the random bytes |
| Hex.SlugShape | backend/migrateSlug.js:29 | eight random bytes always give sixteen lower-case hex characters |
| Hex.HexEncodeInjective | backend/controllers/dashboardController.js:116 | distinct random draws give distinct slugs |
| UserController.ListUsers | backend/controllers/userController.js:5-12 | the listing has one entry per user row, under that row's id and username |
| UserController.ListingHidesPasswords | backend/controllers/userController.js:6 | the listing does not depend on the password column |
| UserController.IsValidRole | backend/controllers/userController.js:48-49 | a role passes iff it is strictly equal to one of the five valid strings |
| UserController.NewRow | backend/controllers/userController.js:20-21 | the inserted row keeps the username and the hash and is active (1). A falsy branch or regional id is stored as NULL, and a stored id is truthy only if the given one was. Role and level are stored as text |
| UserController.MerchantRoleRejected | backend/controllers/userController.js:48-51 | `merchant` is refused as a role; every listed valid role is accepted |
| UserController.UserTable.constructor | backend/database.js:14-23 | the table starts empty, with the id counter at 0 |
| UserController.UserTable.CreateUser | backend/controllers/userController.js:15-29 | 400 "Failed to create user" iff the username is taken, and then nothing changes. Otherwise 201 with the next AUTOINCREMENT id and the new row. Falsy branch and regional ids are stored as NULL. Usernames stay unique |
| UserController.UserTable.UpdateUserStatus | backend/controllers/userController.js:32-41 | only `isActive` of the matching row changes; success is reported whether or not a row matched |
| UserController.UserTable.UpdateUserRole | backend/controllers/userController.js:43-63 | 400 for a role outside the five valid ones, 404 for an unknown id, both without a write. Otherwise only that row's role changes |
| UserController.UserTable.GetUsers | backend/controllers/userController.js:5-12 | returns the password-free listing of the current rows |
| AuthController.ClaimsOf | backend/controllers/authController.js:15-22 | the claims are the row's id, username, role, level, branch id and regional id |
| AuthController.Login | backend/controllers/authController.js:5-34 | 500 iff the lookup failed. Login succeeds iff the row exists, is active and the password matches; the claims are then signed for "8h" and returned. Every other case gets the one 401 message |
| AuthController.LoginDecision | backend/controllers/authController.js:8-13 | over a table with unique usernames: login succeeds iff some row has that username, is active and accepts the password |
| AuthController.FailuresIndistinguishable | backend/controllers/authController.js:31-33 | unknown user, inactive user and wrong password get identical replies |
| AuthController.DatabaseErrorDistinct | backend/controllers/authController.js:10-12 | a database error is a 500, never a 401 |
| AuthController.ClaimsMatchListing | backend/controllers/authController.js:15-22 | the claims equal the user's admin listing entry minus `isActive`, and do not depend on the hash |
| AuthController.LoginUser | backend/controllers/authController.js:5-34 | against the table: login succeeds iff an active row with that username accepts the password |
| ScopeParams.IdParam | backend/controllers/dashboardController.js:53-62 | a string iff the stored id is truthy, and never the empty string; otherwise `[]` |
| ScopeParams.FilterParam | backend/controllers/dashboardController.js:67-68 | always a list; `[]` iff the query value is missing or empty; no piece holds a comma |
| ScopeParams.BuildParams | backend/controllers/dashboardController.js:51-69 | no matching case gives `{}`. The branch-scoped dashboard gives exactly `branch_id` and `regional_id`; the merchant-scoped one exactly the three merchant keys |
| ScopeParams.QueryIgnoredOutsideHeadOffice | backend/controllers/dashboardController.js:51-69 | except for a non-merchant head-office user on dashboard 25, the parameters do not depend on the query |
| ScopeParams.ScopeFromOwnIds | backend/controllers/dashboardController.js:51-64 | in those cases every value is `[]` or the caller's own stored branch or regional id |
| ScopeParams.IdParamShape | backend/controllers/dashboardController.js:53 | a truthy id gives its non-empty string; a falsy id gives `[]` |
| ScopeParams.FilterRoundTrip | backend/controllers/dashboardController.js:67-68 | a filter's pieces join back to the query text and hold no comma; a missing or empty query gives `[]` |
| ScopeParams.FilterRecoversList | backend/controllers/dashboardController.js:67-68 | a comma-joined list of comma-free names arrives as that list |
| ScopeParams.BranchScopesSeparate | backend/controllers/dashboardController.js:52-54 | branch users with different non-zero numeric branch ids never share a `branch_id` scope |
| ScopeParams.MerchantBeforeHeadOffice | backend/controllers/dashboardController.js:61-64 | a merchant gets the merchant shape on dashboard 25 even at head-office level |
| ScopeParams.HeadOfficeMerchantShape | backend/controllers/dashboardController.js:65-68 | a non-merchant head-office user on dashboard 25 gets the query's filters |
| ScopeParams.BranchDashboardShapes | backend/controllers/dashboardController.js:52-60 | dashboard 24, level by level |
| ScopeParams.WorkedBranchCase | backend/controllers/dashboardController.js:52-54 | branch id 42 gives `{branch_id: "42", regional_id: []}` |
| ScopeParams.WorkedRegionalCase | backend/controllers/dashboardController.js:55-57 | regional id 7 gives `{branch_id: [], regional_id: "7"}` |
| ScopeParams.WorkedMerchantCase | backend/controllers/dashboardController.js:61-64 | a merchant's query values are ignored |
| ScopeParams.WorkedHeadOfficeCase | backend/controllers/dashboardController.js:65-68 | `merchant=A,B` gives `["A", "B"]`; an empty province gives `[]` |
| EmbedToken.RoundToSeconds | backend/controllers/dashboardController.js:74 | the rounded second is the one whose half-open window contains the clock reading |
| EmbedToken.Expiry | backend/controllers/dashboardController.js:74 | `exp` lies 600 s after that rounded second |
| EmbedToken.ExpiryUnique | backend/controllers/dashboardController.js:74 | those bounds determine `exp` |
| EmbedToken.ExpiryMonotone | backend/controllers/dashboardController.js:74 | a later reading never gives an earlier `exp` |
| EmbedToken.SameSecondSameExpiry | backend/controllers/dashboardController.js:74 | readings of 1000 ms and 1499 ms share `exp` 601; 1500 ms gives 602 |
| DashboardCatalog.HasGrant | backend/controllers/dashboardController.js:13 | a role may view a dashboard iff one of the roles granted on it is the caller's role or `all` |
| DashboardCatalog.ListingRows | backend/controllers/dashboardController.js:9-14 | every row of the listing join is a grant on an existing dashboard that the role may view |
| DashboardCatalog.EmbedRows | backend/controllers/dashboardController.js:32-37 | every row of the embed join is a listing row, for a dashboard with the requested slug |
| DashboardCatalog.GrantRows | backend/controllers/dashboardController.js:127-131 | the inserted rows are exactly `(role, id)` for each listed role |
| DashboardCatalog.AfterAdd | backend/controllers/dashboardController.js:116-131 | the counter advances by one, and the new id holds the new row with the generated slug. Old rows are kept. The grants are the old ones plus one per listed role on the new id |
| DashboardCatalog.AfterDelete | backend/controllers/dashboardController.js:149-160 | the row is gone and the other rows are unchanged; exactly the grants on that id are removed; the counter is unchanged |
| DashboardCatalog.AfterRegrantAsWritten | backend/controllers/dashboardController.js:172-183 | as written: the rows and the counter are unchanged. The grants on that id become exactly the listed roles, whether or not the dashboard exists. All other grants are kept |
| DashboardCatalog.Listing | backend/controllers/dashboardController.js:9-20 | one listing row per matching grant of an existing dashboard, carrying that dashboard's id and slug |
| DashboardCatalog.ListedIffGranted | backend/controllers/dashboardController.js:9-14 | a dashboard is listed iff it exists and is granted to the role or to `all` |
| DashboardCatalog.RowsOfOneDashboard | backend/controllers/dashboardController.js:9-14 | a dashboard's listing rows are its grant for the role and its grant for `all`, whichever exist |
| DashboardCatalog.ListedTwice | backend/controllers/dashboardController.js:9-14 | a dashboard is listed twice iff it is granted both to the role and to `all` |
| DashboardCatalog.EmbeddableIffGranted | backend/controllers/dashboardController.js:32-37 | the embed join finds a row iff a dashboard with that slug is granted to the role or to `all` |
| DashboardCatalog.ListedSlugEmbeddable | backend/controllers/dashboardController.js:10-36 | every listed dashboard with a slug passes the embed check (for a stored slug `''` this covers no request the route can carry) |
| DashboardCatalog.AfterRegrant | backend/controllers/dashboardController.js:166-194 | the corrected update refuses exactly the ids without a dashboard |
| DashboardCatalog.GrantsOfGrantRows | backend/controllers/dashboardController.js:129-131 | the inserted grant rows grant exactly the listed roles, to that dashboard only |
| DashboardCatalog.AddGrantsExactly | backend/controllers/dashboardController.js:112-141 | provided every grant names an existing dashboard: the new dashboard takes an unused id and exactly the listed roles. Every other row and grant is unchanged, and the foreign key still holds. The store meets that proviso only because it runs the corrected update; as written, see `StaleGrantInherited` |
| DashboardCatalog.DeleteRemovesAll | backend/controllers/dashboardController.js:143-164 | the row and all its grants are gone; nothing else changes |
| DashboardCatalog.RegrantExactly | backend/controllers/dashboardController.js:166-194 | on an existing dashboard, exactly the listed roles are granted afterwards; other dashboards keep theirs |
| DashboardCatalog.RegrantAccess | backend/controllers/dashboardController.js:180-183 | afterwards a role may view the dashboard iff it or `all` was listed |
| DashboardCatalog.StaleGrantInherited | backend/controllers/dashboardController.js:166-183 | as written: a grant on a missing id breaks the foreign key, and the next added dashboard inherits it |
| DashboardCatalog.RegrantKeepsWellFormed | backend/database.js:35-42 | the corrected update keeps every grant on an existing dashboard |
| DashboardController.Embed | backend/controllers/dashboardController.js:39-75 | 500 iff the lookup failed; 403 with one message iff no row. Otherwise the payload has the row's provider id, that id's parameters and the rounded expiry |
| DashboardController.ForbiddenIffNoGrant | backend/controllers/dashboardController.js:32-46 | 403 iff no dashboard with that slug is granted to the role or to `all` |
| DashboardController.UnknownSlugLooksUngranted | backend/controllers/dashboardController.js:43-46 | an unknown slug and an ungranted one get identical 403 replies |
| DashboardController.DatabaseErrorDistinct | backend/controllers/dashboardController.js:40-42 | a database error is a 500 |
| DashboardController.EmbeddedPayload | backend/controllers/dashboardController.js:48-75 | a granted embed signs a granted dashboard with that slug, that dashboard's provider id and its parameters |
| DashboardController.GroupConcat | backend/controllers/dashboardController.js:90 | NULL iff the dashboard has no grant row; comma-free roles split back out of the column |
| DashboardController.RolesColumn | backend/controllers/dashboardController.js:104 | NULL or `''` give no roles; otherwise the pieces are comma-free and join back to the column |
| DashboardController.RolesColumnRecoversGrants | backend/controllers/dashboardController.js:90-104 | `GROUP_CONCAT` then `split(',')` gives back the granted roles, unless a role holds a comma or the only role is `''` |
| DashboardController.DashboardStore.constructor | backend/database.js:27-42 | both tables start empty |
| DashboardController.DashboardStore.GetAvailableDashboards | backend/controllers/dashboardController.js:6-22 | every row is a granted existing dashboard, and every such dashboard appears |
| DashboardController.DashboardStore.GetDashboardEmbed | backend/controllers/dashboardController.js:26-75 | 403 with the uniform message iff nothing with that slug is granted. Otherwise the payload of a granted dashboard with that slug |
| DashboardController.DashboardStore.Enumerate | backend/controllers/dashboardController.js:90 | the roles are listed each once, in the order the engine meets them |
| DashboardController.DashboardStore.AdminRowFor | backend/controllers/dashboardController.js:102-105 | one admin row: the dashboard's columns and its roles read back from `GROUP_CONCAT` |
| DashboardController.DashboardStore.GetDashboards | backend/controllers/dashboardController.js:88-109 | one row per dashboard, granted or not, with its roles |
| DashboardController.DashboardStore.InsertGrants | backend/controllers/dashboardController.js:129-131 | the loop adds exactly one grant row per listed role |
| DashboardController.DashboardStore.AddDashboard | backend/controllers/dashboardController.js:112-141 | 201 with a well-formed slug, and the new state is `AfterAdd` of the old one. The new id gets exactly the listed roles and other grants stay. This rests on `Valid()`, which holds only because the store runs the corrected `UpdateDashboardPermissions` |
| DashboardController.DashboardStore.DeleteDashboard | backend/controllers/dashboardController.js:143-164 | the row and its grants are gone, and success is reported either way |
| DashboardController.DashboardStore.UpdateDashboardPermissions | backend/controllers/dashboardController.js:166-194 | on an existing dashboard, 200 and its grants replaced; on an unknown id, 404 and nothing changes (corrected, see Findings) |
| SlugMigration.LacksSlug | backend/migrateSlug.js:15 | a dashboard is skipped iff its slug is a non-empty string |
| SlugMigration.Pending | backend/migrateSlug.js:15 | the selected ids are exactly the dashboards whose slug is NULL or `''` |
| SlugMigration.PendingBelowExact | backend/migrateSlug.js:15 | the selection in id order lists each pending id below the bound once, increasing |
| SlugMigration.PendingOrderExact | backend/migrateSlug.js:15-24 | the selection is exactly the pending dashboards, each once; it is empty iff nothing is pending |
| SlugMigration.SetSlug | backend/migrateSlug.js:26-30 | one UPDATE changes only that row's slug |
| SlugMigration.Assign | backend/migrateSlug.js:28-37 | the updates add and remove no row and touch no grant |
| SlugMigration.AssignEffect | backend/migrateSlug.js:28-37 | each selected row gets its own slug and keeps its other columns; other rows are untouched |
| SlugMigration.AfterBackfill | backend/migrateSlug.js:15-37 | no row is added or removed, and the grants and the counter are unchanged; with nothing pending the tables are unchanged |
| SlugMigration.BackfillResult | backend/migrateSlug.js:15-37 | afterwards nothing lacks a slug. Each updated row has a 16-hex-digit slug and its other columns. Every other row and every grant is unchanged. This holds whether or not grants name existing dashboards |
| SlugMigration.NothingPendingNoChange | backend/migrateSlug.js:21-24 | with nothing pending, no update is issued |
| SlugMigration.BackfillIdempotent | backend/migrateSlug.js:15-24 | a second run changes nothing |
| SlugMigration.SelectPending | backend/migrateSlug.js:15 | the SELECT returns the pending ids |
| SlugMigration.UpdateSlugs | backend/migrateSlug.js:28-37 | the loop performs exactly the updates of `Assign` |
| SlugMigration.BackfillSlugs | backend/migrateSlug.js:15-41 | the script's new state is `AfterBackfill` of the old one, and nothing is left pending. Grants and the counter are unchanged, and a store that satisfied the foreign key still does. Only ids below the counter are assumed, so dangling grants left by the unfixed `updateDashboardPermissions` are allowed |

## Left out

- HTTP, Express routing, the `protect` and `isAdmin` middleware, JSON encoding and logging are left out. The claims in `req.user` are a parameter.
- bcrypt, JWT signing, `crypto.randomBytes` and `Date.now()` are parameters. `iframeUrl` and the site URL and secrets in it are left out: the model stops at the payload handed to `jwt.sign`.
- Database errors are modelled only for the two single-row lookups: the embed query and the login query. The 500 replies of `getUsers`, `getAvailableDashboards` and `getDashboards` are left out. So are the 400 and 500 replies when an admin statement fails, and the `ROLLBACK` that follows. Each handler is one atomic step.
- `addDashboard` fails with 400 while the `slug` column does not exist yet. The model assumes the backfill's `ALTER TABLE` (`backend/migrateSlug.js:6-12`) has already added it. That DDL and the table creation in `backend/database.js` are not part of this model.
- UserController.UserTable.CreateUser: `username` is a string. A missing username would be stored as NULL, and the UNIQUE constraint allows any number of NULLs; the model does not capture this. The hash is an input, too: a missing or non-string `password` makes `bcrypt.hashSync` at `backend/controllers/userController.js:17-18` throw before the INSERT. Express then answers 500 and nothing is stored. That path is not modelled.
- DashboardController.DashboardStore.AddDashboard: `roles` is a sequence of strings. A missing `roles` makes `forEach` throw; that is not modelled.
- ScopeParams.FilterParam: a query value is a string or missing. A repeated key (`?merchant=a&merchant=b`) makes Express pass an array, and `merchant.split` at `backend/controllers/dashboardController.js:67` throws; that crash is not modelled.
- ScopeParams.Query: the same restriction: `merchant` and `merchantProvince` are `Option<string>`, so arrays and nested objects from the query parser are not modelled.
- AuthController.Login: `password` is a string. A missing password makes `bcrypt.compareSync(undefined, hash)` at `backend/controllers/authController.js:13` throw, and that path is not modelled.
- DashboardController.DashboardStore.UpdateDashboardPermissions: `roles` is a sequence of strings. A missing `roles` makes `roles.forEach` at `backend/controllers/dashboardController.js:181` throw after `BEGIN` and the `DELETE` ran, leaving the transaction open; that path is not modelled.
- DashboardCatalog.GrantRows: a role listed twice gives one grant row. The source's second INSERT fails on the primary key; that failure is not modelled.
- Path parameters (`req.params.id`) are integers here. A non-numeric id matches no row. It is not modelled as stored text.
- Numbers are integers. IEEE doubles, fractional ids and fractional clock readings are not modelled.
- Sqlite.StoreInteger: column affinity is modelled only for the canonical decimal form of an integer. Text with leading zeros, a `+` sign, spaces or a fraction is kept as text. Real values are not modelled.
- Row order and JSON key order are left out. Listings are maps keyed by the grant or the id behind each row. `getDashboards` and the backfill meet ids in increasing order.
- SlugMigration.BackfillSlugs: a failing per-row UPDATE is only logged by the script. The model assumes every UPDATE succeeds.
- DashboardController.RolesColumnRecoversGrants: a role containing a comma splits into several roles. A dashboard whose only grant is the role `''` lists no roles. Both are left outside the lemma's preconditions.

## Findings

| source | as written | input that shows it | evidently intended | confidence | as-written member | corrected member |
|---|---|---|---|---|---|---|
| backend/controllers/dashboardController.js:166-194 | `updateDashboardPermissions` inserts grants for any id, even one with no dashboard. SQLite enforces the foreign key at `backend/database.js:39` only after `PRAGMA foreign_keys = ON`, which is never issued. With AUTOINCREMENT, the next `addDashboard` can take that id and inherit the grants | empty tables; PUT `/dashboards/1/permissions` with `roles: ["finance"]`; then `addDashboard` with `roles: []`. The new dashboard 1 is visible to `finance` | an unknown id is refused and changes nothing; every grant names an existing dashboard | not executed | DashboardCatalog.StaleGrantInherited | DashboardController.DashboardStore.UpdateDashboardPermissions |
