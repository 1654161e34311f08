/** The dashboard handlers (backend/controllers/dashboardController.js):
    the embed decision and its token payload, the listings, and the admin
    updates as methods of the store holding both tables. */
module DashboardController {
  import opened Js
  import opened Wrappers
  import opened Hex
  import opened Sqlite
  import opened AuthController
  import opened ScopeParams
  import opened EmbedToken
  import opened DashboardCatalog

  // ---------------------------------------------------------------------
  // `getDashboardEmbed`
  // ---------------------------------------------------------------------

  /** Result of the embed query (`db.get`): an error, no row, or the
      `metabaseDashboardId` of the first row. */
  datatype Lookup = LookupError(error: string) | NoRow | Row(metabaseId: JsValue)

  /** A lookup the catalog can have produced; a database error is always
      possible, and with several matching rows any of them may come first. */
  ghost predicate IsEmbedLookup(c: Catalog, slug: string, role: JsValue, l: Lookup) {
    match l
    case LookupError(_) => true
    case NoRow => EmbedRows(c, slug, role) == {}
    case Row(m) => exists g :: g in EmbedRows(c, slug, role) && c.dashboards[g.1].metabaseId == m
  }

  const NotAuthorizedMessage := "Not authorized for this dashboard"

  datatype EmbedReply =
    | Embedded(payload: EmbedPayload)
    | Forbidden(message: string)
    | EmbedDatabaseError(message: string, error: string)

  function EmbedStatus(r: EmbedReply): int {
    match r
    case Embedded(_) => 200
    case Forbidden(_) => 403
    case EmbedDatabaseError(_, _) => 500
  }

  /** `getDashboardEmbed` once the row has been looked up: 500 on a database
      error, one uniform 403 without a row, otherwise the payload to sign. */
  function Embed(l: Lookup, user: Claims, query: Query, nowMs: int): (r: EmbedReply)
    ensures r.EmbedDatabaseError? <==> l.LookupError?
    ensures r.Forbidden? <==> l.NoRow?
    ensures r.Forbidden? ==> r == Forbidden(NotAuthorizedMessage)
    ensures r.Embedded? ==> r.payload.dashboard == l.metabaseId
    ensures r.Embedded? ==> r.payload.params == BuildParams(user, l.metabaseId, query)
    ensures r.Embedded? ==> 1000 * (r.payload.exp - LifetimeSeconds) - 500 <= nowMs < 1000 * (r.payload.exp - LifetimeSeconds) + 500
  {
    match l
    case LookupError(e) => EmbedDatabaseError("Database error", e)
    case NoRow => Forbidden(NotAuthorizedMessage)
    case Row(m) => Embedded(EmbedPayload(m, BuildParams(user, m, query), Expiry(nowMs)))
  }

  /** Against the catalog: the embed is refused (403) iff no dashboard with
      that slug has a grant for the caller's role or for `all`. */
  lemma ForbiddenIffNoGrant(c: Catalog, slug: string, user: Claims, query: Query, nowMs: int, l: Lookup)
    requires IsEmbedLookup(c, slug, user.role, l)
    requires !l.LookupError?
    ensures Embed(l, user, query, nowMs).Forbidden? <==>
      !exists id :: id in c.dashboards && c.dashboards[id].slug == Some(slug) && HasGrant(c, user.role, id)
  {
    EmbeddableIffGranted(c, slug, user.role);
  }

  /** An unknown slug and a known slug without a grant give the very same
      reply, so the reply does not reveal which dashboards exist. */
  lemma UnknownSlugLooksUngranted(c: Catalog, unknown: string, known: string, user: Claims,
                                  query: Query, nowMs: int, l1: Lookup, l2: Lookup)
    requires forall id :: id in c.dashboards ==> c.dashboards[id].slug != Some(unknown)
    requires forall id :: id in c.dashboards && c.dashboards[id].slug == Some(known) ==> !HasGrant(c, user.role, id)
    requires IsEmbedLookup(c, unknown, user.role, l1) && !l1.LookupError?
    requires IsEmbedLookup(c, known, user.role, l2) && !l2.LookupError?
    ensures Embed(l1, user, query, nowMs) == Embed(l2, user, query, nowMs) == Forbidden(NotAuthorizedMessage)
    ensures EmbedStatus(Embed(l1, user, query, nowMs)) == 403
  {
    ForbiddenIffNoGrant(c, unknown, user, query, nowMs, l1);
    ForbiddenIffNoGrant(c, known, user, query, nowMs, l2);
  }

  /** A database error is reported as a 500, never as the 403. */
  lemma DatabaseErrorDistinct(e: string, user: Claims, query: Query, nowMs: int)
    ensures EmbedStatus(Embed(LookupError(e), user, query, nowMs)) == 500
  {
  }

  /** A granted embed signs the provider id of a dashboard carrying the
      requested slug and granted to the role, with the scope of that id. */
  lemma EmbeddedPayload(c: Catalog, slug: string, user: Claims, query: Query, nowMs: int, l: Lookup)
    requires IsEmbedLookup(c, slug, user.role, l)
    requires Embed(l, user, query, nowMs).Embedded?
    ensures exists id :: (id in c.dashboards && c.dashboards[id].slug == Some(slug) && HasGrant(c, user.role, id)
      && Embed(l, user, query, nowMs).payload ==
         EmbedPayload(c.dashboards[id].metabaseId, BuildParams(user, c.dashboards[id].metabaseId, query), Expiry(nowMs)))
  {
    var g :| g in EmbedRows(c, slug, user.role) && c.dashboards[g.1].metabaseId == l.metabaseId;
    assert HasGrant(c, user.role, g.1);
  }

  // ---------------------------------------------------------------------
  // `getDashboards`: `GROUP_CONCAT(dp.role)` split back with `split(',')`
  // ---------------------------------------------------------------------

  /** `order` lists the set `s` once each, in some order. */
  predicate Enumerates(order: seq<string>, s: set<string>) {
    && (forall i, j :: 0 <= i < j < |order| ==> order[i] != order[j])
    && (forall i :: 0 <= i < |order| ==> order[i] in s)
    && (forall x :: x in s ==> x in order)
  }

  /** `GROUP_CONCAT(dp.role)`: NULL over no rows, else the roles joined by
      commas in the order the engine met them. */
  function GroupConcat(order: seq<string>): (r: Option<string>)
    ensures r.None? <==> order == []
    ensures r.Some? && (forall i :: 0 <= i < |order| ==> ',' !in order[i]) ==> SplitComma(r.value) == order
  {
    if order == [] then None
    else if forall i :: 0 <= i < |order| ==> ',' !in order[i] then
      JoinSplit(order);
      Some(JoinComma(order))
    else Some(JoinComma(order))
  }

  /** `row.roles ? row.roles.split(',') : []`: no roles for NULL or `''`,
      otherwise comma-free pieces that join back to the column. */
  function RolesColumn(concat: Option<string>): (r: seq<string>)
    ensures concat.None? || concat == Some("") ==> r == []
    ensures r != [] ==> concat.Some? && JoinComma(r) == concat.value
    ensures forall i :: 0 <= i < |r| ==> ',' !in r[i]
  {
    if concat.Some? && concat.value != "" then
      SplitJoin(concat.value);
      SplitComma(concat.value)
    else []
  }

  /** The admin listing gives back exactly the granted roles, unless a role
      holds a comma or the only role is the empty string. */
  lemma RolesColumnRecoversGrants(order: seq<string>, s: set<string>)
    requires Enumerates(order, s)
    requires forall r :: r in s ==> ',' !in r
    requires s != {""}
    ensures RolesColumn(GroupConcat(order)) == order
  {
    if order != [] {
      if |order| == 1 {
        assert order[0] in s;
        assert s == {order[0]};
      }
      assert JoinComma(order) != "" by {
        if |order| > 1 {
          assert ',' in JoinComma(order) by {
            assert JoinComma(order) == order[0] + "," + JoinComma(order[1..]);
            assert JoinComma(order)[|order[0]|] == ',';
          }
        }
      }
      JoinSplit(order);
    }
  }

  /** A row of the admin listing. */
  datatype AdminRow = AdminRow(id: int, name: JsValue, metabaseId: JsValue, roles: seq<string>, slug: Option<string>)

  /** `row` is what the admin listing shows for dashboard `id`: its columns,
      and its granted roles read back in some order the engine chose. */
  ghost predicate IsAdminRow(c: Catalog, id: int, row: AdminRow)
    requires id in c.dashboards
  {
    && row.id == id
    && row.name == c.dashboards[id].name
    && row.metabaseId == c.dashboards[id].metabaseId
    && row.slug == c.dashboards[id].slug
    && exists order :: Enumerates(order, GrantsOf(c, id)) && row.roles == RolesColumn(GroupConcat(order))
  }

  // ---------------------------------------------------------------------
  // The store: both tables, updated in place by the admin handlers
  // ---------------------------------------------------------------------

  datatype AdminReply = AdminReply(status: int, message: string, slug: Option<string>)

  class DashboardStore {
    var dashboards: map<int, Dashboard>
    var grants: set<Grant>
    var lastId: int

    function Snapshot(): Catalog
      reads this
    {
      Catalog(dashboards, grants, lastId)
    }

    ghost predicate Valid()
      reads this
    {
      WellFormed(Snapshot())
    }

    constructor ()
      ensures Valid() && Snapshot() == EmptyCatalog
    {
      dashboards := map[];
      grants := {};
      lastId := 0;
    }

    /** `getAvailableDashboards`. */
    method GetAvailableDashboards(role: JsValue) returns (rows: map<Grant, ListedDashboard>)
      ensures rows == Listing(Snapshot(), role)
      ensures forall g :: g in rows ==> g.1 in dashboards && HasGrant(Snapshot(), role, g.1)
      ensures forall id :: id in dashboards && HasGrant(Snapshot(), role, id) ==> exists g :: g in rows && g.1 == id
    {
      rows := Listing(Snapshot(), role);
      forall id | id in dashboards && HasGrant(Snapshot(), role, id)
        ensures exists g :: g in rows && g.1 == id
      {
        ListedIffGranted(Snapshot(), role, id);
      }
    }

    /** `getDashboardEmbed` against the store: the join, then `Embed`. */
    method GetDashboardEmbed(slug: string, user: Claims, query: Query, nowMs: int) returns (reply: EmbedReply)
      ensures !reply.EmbedDatabaseError?
      ensures reply.Forbidden? <==>
        !exists id :: id in dashboards && dashboards[id].slug == Some(slug) && HasGrant(Snapshot(), user.role, id)
      ensures reply.Forbidden? ==> reply == Forbidden(NotAuthorizedMessage)
      ensures reply.Embedded? ==> exists id :: (id in dashboards && dashboards[id].slug == Some(slug)
        && HasGrant(Snapshot(), user.role, id)
        && reply.payload == EmbedPayload(dashboards[id].metabaseId, BuildParams(user, dashboards[id].metabaseId, query), Expiry(nowMs)))
    {
      var rows := EmbedRows(Snapshot(), slug, user.role);
      var l: Lookup;
      if rows == {} {
        l := NoRow;
      } else {
        var g :| g in rows;
        l := Row(dashboards[g.1].metabaseId);
      }
      ForbiddenIffNoGrant(Snapshot(), slug, user, query, nowMs, l);
      reply := Embed(l, user, query, nowMs);
      if reply.Embedded? {
        EmbeddedPayload(Snapshot(), slug, user, query, nowMs, l);
      }
    }

    /** Lists a set of roles in the order the engine happens to meet them. */
    static method Enumerate(s: set<string>) returns (order: seq<string>)
      ensures Enumerates(order, s)
    {
      order := [];
      var rest := s;
      while rest != {}
        invariant rest <= s
        invariant forall i, j :: 0 <= i < j < |order| ==> order[i] != order[j]
        invariant forall i :: 0 <= i < |order| ==> order[i] in s && order[i] !in rest
        invariant forall x :: x in s ==> x in rest || x in order
        decreases |rest|
      {
        var r :| r in rest;
        order := order + [r];
        rest := rest - {r};
      }
    }

    /** One row of `getDashboards`: the dashboard's columns and its roles
        read back from `GROUP_CONCAT` with `split(',')`. */
    method AdminRowFor(id: int) returns (row: AdminRow)
      requires id in dashboards
      ensures IsAdminRow(Snapshot(), id, row)
    {
      var d := dashboards[id];
      var order := Enumerate(GrantsOf(Snapshot(), id));
      row := AdminRow(id, d.name, d.metabaseId, RolesColumn(GroupConcat(order)), d.slug);
    }

    /** `getDashboards`: one row per dashboard (LEFT JOIN, GROUP BY d.id),
        met in id order. */
    method GetDashboards() returns (rows: map<int, AdminRow>)
      requires Valid()
      ensures rows.Keys == dashboards.Keys
      ensures forall id :: id in rows ==> IsAdminRow(Snapshot(), id, rows[id])
    {
      rows := map[];
      var id := 1;
      while id <= lastId
        invariant 1 <= id <= lastId + 1
        invariant rows.Keys == set k | k in dashboards && k < id
        invariant forall k :: k in rows ==> IsAdminRow(Snapshot(), k, rows[k])
      {
        if id in dashboards {
          var row := AdminRowFor(id);
          rows := rows[id := row];
        }
        id := id + 1;
      }
    }

    /** The `roles.forEach(role => stmt.run(role, id))` loop. */
    method InsertGrants(id: int, roles: seq<string>)
      modifies this
      ensures grants == old(grants) + GrantRows(roles, id)
      ensures dashboards == old(dashboards) && lastId == old(lastId)
    {
      var i := 0;
      while i < |roles|
        invariant 0 <= i <= |roles|
        invariant grants == old(grants) + GrantRows(roles[..i], id)
        invariant dashboards == old(dashboards) && lastId == old(lastId)
      {
        assert roles[..i + 1] == roles[..i] + [roles[i]];
        grants := grants + {(roles[i], id)};
        i := i + 1;
      }
      assert roles[..|roles|] == roles;
    }

    /** `addDashboard`: a fresh slug from eight random bytes, a new row, and
        a grant per listed role. */
    method AddDashboard(name: JsValue, metabaseId: JsValue, roles: seq<string>, random: Bytes8)
      returns (reply: AdminReply)
      requires Valid()
      modifies this
      ensures Valid()
      ensures reply == AdminReply(201, "Dashboard added successfully", Some(HexEncode(random)))
      ensures IsSlug(reply.slug.value)
      ensures Snapshot() == AfterAdd(old(Snapshot()), name, metabaseId, roles, HexEncode(random))
      ensures GrantsOf(Snapshot(), lastId) == set r | r in roles
      ensures forall id :: id != lastId ==> GrantsOf(Snapshot(), id) == GrantsOf(old(Snapshot()), id)
    {
      var slug := HexEncode(random);
      SlugShape(random);
      AddGrantsExactly(Snapshot(), name, metabaseId, roles, slug);
      var id := lastId + 1;
      dashboards := dashboards[id := Dashboard(StoreText(name), StoreInteger(metabaseId), Some(slug))];
      lastId := id;
      InsertGrants(id, roles);
      reply := AdminReply(201, "Dashboard added successfully", Some(slug));
    }

    /** `deleteDashboard`: its grants, then its row; success is reported
        whether or not the row existed. */
    method DeleteDashboard(id: int) returns (reply: AdminReply)
      requires Valid()
      modifies this
      ensures Valid()
      ensures reply == AdminReply(200, "Dashboard deleted successfully", None)
      ensures Snapshot() == AfterDelete(old(Snapshot()), id)
      ensures id !in dashboards && GrantsOf(Snapshot(), id) == {}
    {
      DeleteRemovesAll(Snapshot(), id);
      grants := set g | g in grants && g.1 != id;
      dashboards := dashboards - {id};
      reply := AdminReply(200, "Dashboard deleted successfully", None);
    }

    /** `updateDashboardPermissions`: replaces the dashboard's grants by the
        listed roles. An id without a dashboard is refused with 404 (see
        `StaleGrantInherited` for what the unguarded update does). */
    method UpdateDashboardPermissions(id: int, roles: seq<string>) returns (reply: AdminReply)
      requires Valid()
      modifies this
      ensures Valid()
      ensures reply.status == 200 <==> id in old(dashboards)
      ensures reply.status == 200 ==> reply == AdminReply(200, "Dashboard permissions updated successfully", None)
      ensures reply.status != 200 ==> reply == AdminReply(404, "Dashboard not found.", None)
      ensures AfterRegrant(old(Snapshot()), id, roles) == if reply.status == 200 then Some(Snapshot()) else None
      ensures reply.status != 200 ==> Snapshot() == old(Snapshot())
    {
      if id !in dashboards {
        return AdminReply(404, "Dashboard not found.", None);
      }
      RegrantExactly(Snapshot(), id, roles);
      grants := set g | g in grants && g.1 != id;
      InsertGrants(id, roles);
      reply := AdminReply(200, "Dashboard permissions updated successfully", None);
    }
  }
}
