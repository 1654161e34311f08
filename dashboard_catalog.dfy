/** The `dashboards` table and the `dashboard_permissions` relation as a
    value, the access resolver over them, and the table updates of the
    admin handlers (backend/controllers/dashboardController.js,
    backend/database.js). */
module DashboardCatalog {
  import opened Js
  import opened Wrappers
  import opened Sqlite

  /** One row of `dashboards`; `slug` is NULL until assigned. */
  datatype Dashboard = Dashboard(name: JsValue, metabaseId: JsValue, slug: Option<string>)

  /** A row `(role, dashboard_id)` of `dashboard_permissions`. Its primary
      key is the whole pair, so the relation is a set of pairs. */
  type Grant = (string, int)

  /** Both tables and the AUTOINCREMENT counter of `dashboards`. */
  datatype Catalog = Catalog(dashboards: map<int, Dashboard>, grants: set<Grant>, lastId: int)

  /** The wildcard role: a grant to it admits every role. */
  const AllRoles := "all"

  const EmptyCatalog := Catalog(map[], {}, 0)

  /** Every dashboard id was handed out by the AUTOINCREMENT counter. */
  ghost predicate IdsBounded(c: Catalog) {
    && c.lastId >= 0
    && (forall id :: id in c.dashboards ==> 1 <= id <= c.lastId)
  }

  /** Ids are below the counter, and every grant names an existing
      dashboard (the foreign key of `dashboard_permissions`). */
  ghost predicate WellFormed(c: Catalog) {
    && IdsBounded(c)
    && (forall g :: g in c.grants ==> g.1 in c.dashboards)
  }

  /** `dp.role = ? OR dp.role = 'all'`. */
  predicate RoleMatches(role: JsValue, grantRole: string) {
    role == Text(grantRole) || grantRole == AllRoles
  }

  /** The roles granted on one dashboard. */
  function GrantsOf(c: Catalog, id: int): set<string> {
    set g | g in c.grants && g.1 == id :: g.0
  }

  /** The access rule: a grant for the caller's role or for `all`; that
      is, one of the roles granted on the dashboard matches the caller. */
  predicate HasGrant(c: Catalog, role: JsValue, id: int): (b: bool)
    ensures b <==> exists r :: r in GrantsOf(c, id) && RoleMatches(role, r)
  {
    assert role.Text? && (role.s, id) in c.grants ==> role.s in GrantsOf(c, id);
    assert (AllRoles, id) in c.grants ==> AllRoles in GrantsOf(c, id);
    (role.Text? && (role.s, id) in c.grants) || (AllRoles, id) in c.grants
  }

  // ---------------------------------------------------------------------
  // Access resolver: `getAvailableDashboards` and the embed lookup
  // ---------------------------------------------------------------------

  /** The rows of the listing join: one per grant that joins an existing
      dashboard and matches the role. There is no DISTINCT. */
  function ListingRows(c: Catalog, role: JsValue): (r: set<Grant>)
    ensures r <= c.grants
    ensures forall g :: g in r ==> g.1 in c.dashboards && HasGrant(c, role, g.1)
  {
    set g | g in c.grants && g.1 in c.dashboards && RoleMatches(role, g.0)
  }

  /** `SELECT d.id, d.name, d.slug`. */
  datatype ListedDashboard = ListedDashboard(id: int, name: JsValue, slug: Option<string>)

  /** The listing, each row keyed by the grant row that produced it. */
  function Listing(c: Catalog, role: JsValue): (r: map<Grant, ListedDashboard>)
    ensures r.Keys == ListingRows(c, role)
    ensures forall g :: g in r ==> g.1 in c.dashboards && r[g].id == g.1 && r[g].slug == c.dashboards[g.1].slug
  {
    map g | g in ListingRows(c, role) :: ListedDashboard(g.1, c.dashboards[g.1].name, c.dashboards[g.1].slug)
  }

  /** The rows of the embed join for one slug. */
  function EmbedRows(c: Catalog, slug: string, role: JsValue): (r: set<Grant>)
    ensures r <= ListingRows(c, role)
    ensures forall g :: g in r ==> g.1 in c.dashboards && c.dashboards[g.1].slug == Some(slug)
  {
    set g | g in c.grants && g.1 in c.dashboards && RoleMatches(role, g.0) && c.dashboards[g.1].slug == Some(slug)
  }

  /** A dashboard is listed iff it exists and has a grant for the role or
      for `all`. */
  lemma ListedIffGranted(c: Catalog, role: JsValue, id: int)
    ensures (exists g :: g in ListingRows(c, role) && g.1 == id) <==> id in c.dashboards && HasGrant(c, role, id)
  {
  }

  /** The listing rows of one dashboard are its grant for the role and its
      grant for `all`, whichever exist; so a dashboard granted both ways
      is listed twice. */
  lemma RowsOfOneDashboard(c: Catalog, role: JsValue, id: int)
    requires id in c.dashboards
    ensures (set g | g in ListingRows(c, role) && g.1 == id) ==
      (if role.Text? && (role.s, id) in c.grants then {(role.s, id)} else {}) +
      (if (AllRoles, id) in c.grants then {(AllRoles, id)} else {})
  {
  }

  /** Listed twice exactly when both grants exist and the role is not `all`. */
  lemma ListedTwice(c: Catalog, role: JsValue, id: int)
    requires id in c.dashboards
    ensures |set g | g in ListingRows(c, role) && g.1 == id| == 2 <==>
      role.Text? && role.s != AllRoles && (role.s, id) in c.grants && (AllRoles, id) in c.grants
  {
    RowsOfOneDashboard(c, role, id);
    if role.Text? && role.s != AllRoles && (role.s, id) in c.grants && (AllRoles, id) in c.grants {
      assert {(role.s, id)} + {(AllRoles, id)} == {(role.s, id), (AllRoles, id)};
    }
  }

  /** The embed check admits a slug iff a dashboard with that slug has a
      grant for the role or for `all`: the same rule as the listing. */
  lemma EmbeddableIffGranted(c: Catalog, slug: string, role: JsValue)
    ensures EmbedRows(c, slug, role) != {} <==>
      exists id :: id in c.dashboards && c.dashboards[id].slug == Some(slug) && HasGrant(c, role, id)
  {
    if exists id :: id in c.dashboards && c.dashboards[id].slug == Some(slug) && HasGrant(c, role, id) {
      var id :| id in c.dashboards && c.dashboards[id].slug == Some(slug) && HasGrant(c, role, id);
      if role.Text? && (role.s, id) in c.grants {
        assert (role.s, id) in EmbedRows(c, slug, role);
      } else {
        assert (AllRoles, id) in EmbedRows(c, slug, role);
      }
    }
    if EmbedRows(c, slug, role) != {} {
      var g :| g in EmbedRows(c, slug, role);
      assert HasGrant(c, role, g.1);
    }
  }

  /** Every listed dashboard that has a slug passes the embed check. The
      route only ever carries a non-empty slug, so for a stored slug `''`
      this says nothing about a request that can be made. */
  lemma ListedSlugEmbeddable(c: Catalog, role: JsValue, g: Grant)
    requires g in ListingRows(c, role)
    requires c.dashboards[g.1].slug.Some?
    ensures g in EmbedRows(c, c.dashboards[g.1].slug.value, role)
  {
  }

  // ---------------------------------------------------------------------
  // Table updates of the admin handlers
  // ---------------------------------------------------------------------

  /** The grant rows `roles.forEach(role => stmt.run(role, id))` inserts. */
  function GrantRows(roles: seq<string>, id: int): (r: set<Grant>)
    ensures forall g :: g in r <==> g.1 == id && g.0 in roles
  {
    set r | r in roles :: (r, id)
  }

  /** `addDashboard`: a new row under the next AUTOINCREMENT id, then one
      grant per listed role. */
  function AfterAdd(c: Catalog, name: JsValue, metabaseId: JsValue, roles: seq<string>, slug: string): (r: Catalog)
    ensures r.lastId == c.lastId + 1
    ensures r.dashboards.Keys == c.dashboards.Keys + {r.lastId}
    ensures r.dashboards[r.lastId].slug == Some(slug)
    ensures forall id :: id in c.dashboards && id != r.lastId ==> r.dashboards[id] == c.dashboards[id]
    ensures forall g :: g in r.grants <==> g in c.grants || (g.1 == r.lastId && g.0 in roles)
  {
    var id := c.lastId + 1;
    Catalog(c.dashboards[id := Dashboard(StoreText(name), StoreInteger(metabaseId), Some(slug))],
            c.grants + GrantRows(roles, id),
            id)
  }

  /** `deleteDashboard`: its grants, then its row. */
  function AfterDelete(c: Catalog, id: int): (r: Catalog)
    ensures r.dashboards.Keys == c.dashboards.Keys - {id}
    ensures forall k :: k in r.dashboards ==> r.dashboards[k] == c.dashboards[k]
    ensures forall g :: g in r.grants <==> g in c.grants && g.1 != id
    ensures r.lastId == c.lastId
  {
    c.(dashboards := c.dashboards - {id}, grants := set g | g in c.grants && g.1 != id)
  }

  /** `updateDashboardPermissions` as written: drop the dashboard's grants
      and insert the new ones, whether or not the dashboard exists (the
      foreign key is declared but SQLite does not enforce it by default). */
  function AfterRegrantAsWritten(c: Catalog, id: int, roles: seq<string>): (r: Catalog)
    ensures r.dashboards == c.dashboards && r.lastId == c.lastId
    ensures forall g :: g in r.grants <==> (g in c.grants && g.1 != id) || (g.1 == id && g.0 in roles)
  {
    c.(grants := (set g | g in c.grants && g.1 != id) + GrantRows(roles, id))
  }

  /** `updateDashboardPermissions` with the existence check the foreign key
      calls for: an unknown id changes nothing. */
  function AfterRegrant(c: Catalog, id: int, roles: seq<string>): (r: Option<Catalog>)
    ensures r.None? <==> id !in c.dashboards
  {
    if id in c.dashboards then Some(AfterRegrantAsWritten(c, id, roles)) else None
  }

  lemma GrantsOfGrantRows(roles: seq<string>, id: int, other: int)
    ensures GrantsOf(Catalog(map[], GrantRows(roles, id), 0), id) == set r | r in roles
    ensures other != id ==> GrantsOf(Catalog(map[], GrantRows(roles, id), 0), other) == {}
  {
    var c := Catalog(map[], GrantRows(roles, id), 0);
    forall r | r in roles ensures r in GrantsOf(c, id) {
      assert (r, id) in c.grants;
    }
  }

  /** After `addDashboard` the new dashboard is granted exactly the listed
      roles, its id was unused, and every other dashboard keeps its row and
      its grants. */
  lemma AddGrantsExactly(c: Catalog, name: JsValue, metabaseId: JsValue, roles: seq<string>, slug: string)
    requires WellFormed(c)
    ensures var c' := AfterAdd(c, name, metabaseId, roles, slug);
      && WellFormed(c')
      && c'.lastId !in c.dashboards
      && GrantsOf(c', c'.lastId) == set r | r in roles
      && c'.dashboards[c'.lastId].slug == Some(slug)
      && (forall id :: id != c'.lastId ==> GrantsOf(c', id) == GrantsOf(c, id))
      && (forall id :: id in c.dashboards ==> id in c'.dashboards && c'.dashboards[id] == c.dashboards[id])
  {
    var c' := AfterAdd(c, name, metabaseId, roles, slug);
    var id := c'.lastId;
    GrantsOfGrantRows(roles, id, id);
    assert GrantsOf(c, id) == {};
    assert GrantsOf(c', id) == GrantsOf(c, id) + GrantsOf(Catalog(map[], GrantRows(roles, id), 0), id);
    forall other | other != id ensures GrantsOf(c', other) == GrantsOf(c, other) {
      GrantsOfGrantRows(roles, id, other);
    }
  }

  /** After `deleteDashboard` the row and all its grants are gone and
      nothing else changed. */
  lemma DeleteRemovesAll(c: Catalog, id: int)
    requires WellFormed(c)
    ensures var c' := AfterDelete(c, id);
      && WellFormed(c')
      && id !in c'.dashboards
      && GrantsOf(c', id) == {}
      && (forall other :: other != id ==> GrantsOf(c', other) == GrantsOf(c, other))
      && (forall other :: other != id && other in c.dashboards ==> other in c'.dashboards && c'.dashboards[other] == c.dashboards[other])
  {
  }

  /** After a successful permission update the dashboard is granted exactly
      the listed roles and nothing else changed. */
  lemma RegrantExactly(c: Catalog, id: int, roles: seq<string>)
    requires WellFormed(c)
    requires id in c.dashboards
    ensures var c' := AfterRegrantAsWritten(c, id, roles);
      && WellFormed(c')
      && c'.dashboards == c.dashboards
      && GrantsOf(c', id) == set r | r in roles
      && (forall other :: other != id ==> GrantsOf(c', other) == GrantsOf(c, other))
  {
  }

  /** What a permission update means for access: a role may then view the
      dashboard iff it was listed or `all` was listed. */
  lemma RegrantAccess(c: Catalog, id: int, roles: seq<string>, role: string)
    ensures HasGrant(AfterRegrantAsWritten(c, id, roles), Text(role), id) <==> role in roles || AllRoles in roles
  {
  }

  /** As written, a permission update on an id with no dashboard leaves
      dangling grants; the next `addDashboard` takes that id and inherits
      them: a dashboard created for no role is visible to `finance`. */
  lemma StaleGrantInherited(slug: string)
    ensures var c1 := AfterRegrantAsWritten(EmptyCatalog, 1, ["finance"]);
      var c2 := AfterAdd(c1, Text("Sales"), Num(24), [], slug);
      && !WellFormed(c1)
      && c2.lastId == 1
      && GrantsOf(c2, 1) == {"finance"}
      && HasGrant(c2, Text("finance"), 1)
  {
    var c1 := AfterRegrantAsWritten(EmptyCatalog, 1, ["finance"]);
    assert ("finance", 1) in c1.grants;
    var c2 := AfterAdd(c1, Text("Sales"), Num(24), [], slug);
    assert c2.grants == {("finance", 1)};
  }

  /** With the existence check an update keeps the catalog well formed, so
      `AddGrantsExactly` applies to every later `addDashboard`. */
  lemma RegrantKeepsWellFormed(c: Catalog, id: int, roles: seq<string>)
    requires WellFormed(c)
    ensures AfterRegrant(c, id, roles).Some? ==> WellFormed(AfterRegrant(c, id, roles).value)
  {
  }
}
