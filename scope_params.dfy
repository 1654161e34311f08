/** The scope parameters put into a dashboard embedding token
    (backend/controllers/dashboardController.js, the `params` chain of
    `getDashboardEmbed`). */
module ScopeParams {
  import opened Js
  import opened Wrappers
  import opened AuthController

  /** A filter value: one string, or a list of strings. The JavaScript `[]`
      (the empty constraint) is `List([])`. */
  datatype Val = Str(s: string) | List(items: seq<string>)

  const NoValues: Val := List([])

  type Params = map<string, Val>

  /** The optional `merchant` and `merchantProvince` query values. */
  datatype Query = Query(merchant: Option<string>, merchantProvince: Option<string>)

  /** The provider's branch-scoped and merchant-scoped dashboards. */
  const BranchDashboard: JsValue := Num(24)
  const MerchantDashboard: JsValue := Num(25)

  const Branch: JsValue := Text("branch")
  const Regional: JsValue := Text("regional")
  const HeadOffice: JsValue := Text("ho")
  const Merchant: JsValue := Text("merchant")

  /** `id ? id.toString() : []`. */
  function IdParam(id: JsValue): (r: Val)
    ensures r.Str? <==> Truthy(id)
    ensures r.Str? ==> r.s != []
    ensures r.List? ==> r == NoValues
  {
    if Truthy(id) then Str(ToJsString(id)) else NoValues
  }

  /** `q && q.length > 0 ? q.split(',') : []`. */
  function FilterParam(q: Option<string>): (r: Val)
    ensures r.List?
    ensures r == NoValues <==> q.None? || q.value == ""
    ensures forall i :: 0 <= i < |r.items| ==> ',' !in r.items[i]
  {
    if q.Some? && |q.value| > 0 then List(SplitComma(q.value)) else NoValues
  }

  /** The one case of the chain that reads the query: a head-office user who
      is not a merchant, on the merchant-scoped dashboard. */
  predicate HonoursQuery(user: Claims, dashboardId: JsValue) {
    user.level == HeadOffice && dashboardId == MerchantDashboard && user.role != Merchant
  }

  /** Whether one of the five cases of the chain applies. */
  predicate Matched(user: Claims, dashboardId: JsValue) {
    || (dashboardId == BranchDashboard && user.level in {Branch, Regional, HeadOffice})
    || (dashboardId == MerchantDashboard && (user.role == Merchant || user.level == HeadOffice))
  }

  const BranchKeys: set<string> := {"branch_id", "regional_id"}
  const MerchantKeys: set<string> := {"merchant_id", "merchant_name", "merchant_province"}

  /** The first-match chain: branch, regional and head-office levels on the
      branch-scoped dashboard; the merchant role, then the head-office level,
      on the merchant-scoped dashboard; anything else gives `{}`. */
  function BuildParams(user: Claims, dashboardId: JsValue, query: Query): (p: Params)
    ensures !Matched(user, dashboardId) ==> p == map[]
    ensures dashboardId == BranchDashboard && Matched(user, dashboardId) ==> p.Keys == BranchKeys
    ensures dashboardId == MerchantDashboard && Matched(user, dashboardId) ==> p.Keys == MerchantKeys
  {
    if user.level == Branch && dashboardId == BranchDashboard then
      map["branch_id" := IdParam(user.branchId), "regional_id" := NoValues]
    else if user.level == Regional && dashboardId == BranchDashboard then
      map["branch_id" := NoValues, "regional_id" := IdParam(user.regionalId)]
    else if user.level == HeadOffice && dashboardId == BranchDashboard then
      map["branch_id" := NoValues, "regional_id" := NoValues]
    else if user.role == Merchant && dashboardId == MerchantDashboard then
      map["merchant_id" := IdParam(user.branchId), "merchant_name" := NoValues, "merchant_province" := NoValues]
    else if user.level == HeadOffice && dashboardId == MerchantDashboard then
      map["merchant_id" := NoValues,
          "merchant_name" := FilterParam(query.merchant),
          "merchant_province" := FilterParam(query.merchantProvince)]
    else
      map[]
  }

  /** Request values can change the parameters only in the head-office,
      non-merchant, merchant-dashboard case; everywhere else the parameters
      are the same whatever the query says. */
  lemma QueryIgnoredOutsideHeadOffice(user: Claims, dashboardId: JsValue, q1: Query, q2: Query)
    requires !HonoursQuery(user, dashboardId)
    ensures BuildParams(user, dashboardId, q1) == BuildParams(user, dashboardId, q2)
  {
  }

  /** Outside that case every value is the empty constraint or the caller's
      own stored branch or regional id; no non-empty list ever appears. */
  lemma ScopeFromOwnIds(user: Claims, dashboardId: JsValue, query: Query)
    requires !HonoursQuery(user, dashboardId)
    ensures forall k :: k in BuildParams(user, dashboardId, query) ==>
      var v := BuildParams(user, dashboardId, query)[k];
      v == NoValues || v == Str(ToJsString(user.branchId)) || v == Str(ToJsString(user.regionalId))
  {
  }

  /** A stored id yields a non-empty string; a falsy one (`0`, `''`, `null`,
      missing) yields the empty constraint, never the string of a falsy id. */
  lemma IdParamShape(id: JsValue)
    ensures Truthy(id) ==> IdParam(id).Str? && IdParam(id).s != [] && IdParam(id).s == ToJsString(id)
    ensures !Truthy(id) ==> IdParam(id) == NoValues
  {
  }

  /** In the head-office case the pieces of a filter are exactly the query
      text cut at its commas: joining them gives the query back, no piece
      holds a comma, and a blank or missing query gives the empty constraint. */
  lemma FilterRoundTrip(q: Option<string>)
    ensures FilterParam(q).List?
    ensures q.Some? && q.value != [] ==> JoinComma(FilterParam(q).items) == q.value
    ensures forall i :: 0 <= i < |FilterParam(q).items| ==> ',' !in FilterParam(q).items[i]
    ensures q == None || q == Some("") ==> FilterParam(q) == NoValues
  {
    if q.Some? && q.value != [] {
      SplitJoin(q.value);
    }
  }

  /** Any non-empty list of comma-free names submitted as `names.join(',')`
      arrives as exactly that list. */
  lemma FilterRecoversList(names: seq<string>)
    requires |names| >= 1 && JoinComma(names) != ""
    requires forall i :: 0 <= i < |names| ==> ',' !in names[i]
    ensures FilterParam(Some(JoinComma(names))) == List(names)
  {
    JoinSplit(names);
  }

  /** Two branch-level users with different numeric branch ids never receive
      the same branch scope on the branch-scoped dashboard. */
  lemma BranchScopesSeparate(u1: Claims, u2: Claims, query: Query)
    requires u1.level == Branch && u2.level == Branch
    requires u1.branchId.Num? && u2.branchId.Num? && u1.branchId.n != 0 && u2.branchId.n != 0
    requires u1.branchId != u2.branchId
    ensures BuildParams(u1, BranchDashboard, query)["branch_id"] != BuildParams(u2, BranchDashboard, query)["branch_id"]
  {
    if IntToString(u1.branchId.n) == IntToString(u2.branchId.n) {
      IntToStringInjective(u1.branchId.n, u2.branchId.n);
    }
  }

  /** A merchant keeps the merchant shape even at head-office level, and
      request values do not reach it. */
  lemma MerchantBeforeHeadOffice(user: Claims, query: Query)
    requires user.role == Merchant
    ensures BuildParams(user, MerchantDashboard, query) ==
      map["merchant_id" := IdParam(user.branchId), "merchant_name" := NoValues, "merchant_province" := NoValues]
  {
  }

  /** The head-office case on the merchant-scoped dashboard. */
  lemma HeadOfficeMerchantShape(user: Claims, query: Query)
    requires HonoursQuery(user, MerchantDashboard)
    ensures BuildParams(user, MerchantDashboard, query) ==
      map["merchant_id" := NoValues,
          "merchant_name" := FilterParam(query.merchant),
          "merchant_province" := FilterParam(query.merchantProvince)]
  {
  }

  /** The branch-scoped dashboard, level by level. */
  lemma BranchDashboardShapes(user: Claims, query: Query)
    ensures user.level == Branch ==>
      (BuildParams(user, BranchDashboard, query) == map["branch_id" := IdParam(user.branchId), "regional_id" := NoValues])
    ensures user.level == Regional ==>
      (BuildParams(user, BranchDashboard, query) == map["branch_id" := NoValues, "regional_id" := IdParam(user.regionalId)])
    ensures user.level == HeadOffice ==>
      (BuildParams(user, BranchDashboard, query) == map["branch_id" := NoValues, "regional_id" := NoValues])
  {
  }

  /** Worked case: a branch user with branch id 42. */
  lemma WorkedBranchCase()
    ensures BuildParams(Claims(1, "b", Text("finance"), Branch, Num(42), Null), BranchDashboard, Query(None, None))
      == map["branch_id" := Str("42"), "regional_id" := List([])]
  {
    assert DigitChar(4) == '4' && DigitChar(2) == '2';
    assert NatToString(42) == NatToString(4) + [DigitChar(2)] == "42";
  }

  /** Worked case: a regional user with regional id 7 and no branch id. */
  lemma WorkedRegionalCase()
    ensures BuildParams(Claims(2, "r", Text("finance"), Regional, Null, Num(7)), BranchDashboard, Query(None, None))
      == map["branch_id" := List([]), "regional_id" := Str("7")]
  {
    assert DigitChar(7) == '7';
  }

  /** Worked case: a merchant with id 99 whose request carries filters. */
  lemma WorkedMerchantCase()
    ensures BuildParams(Claims(3, "m", Merchant, Null, Num(99), Null), MerchantDashboard, Query(Some("X"), Some("Y")))
      == map["merchant_id" := Str("99"), "merchant_name" := List([]), "merchant_province" := List([])]
  {
    assert DigitChar(9) == '9';
    assert NatToString(99) == NatToString(9) + [DigitChar(9)] == "99";
  }

  /** Worked case: a head-office user sending `merchant=A,B` and an empty
      province. */
  lemma WorkedHeadOfficeCase()
    ensures BuildParams(Claims(4, "h", Text("admin"), HeadOffice, Null, Null), MerchantDashboard, Query(Some("A,B"), Some("")))
      == map["merchant_id" := List([]), "merchant_name" := List(["A", "B"]), "merchant_province" := List([])]
  {
    assert "B"[0] == 'B' && "B"[1..] == "" && SplitComma("") == [""];
    assert ['B'] + "" == "B" && [""][1..] == [];
    assert SplitComma("B") == [['B'] + ""] + [""][1..] == ["B"];
    assert ",B"[0] == ',' && ",B"[1..] == "B";
    assert SplitComma(",B") == ["", "B"];
    assert "A,B"[0] == 'A' && "A,B"[1..] == ",B";
    assert ['A'] + "" == "A" && ["", "B"][1..] == ["B"];
    assert SplitComma("A,B") == [['A'] + ""] + ["", "B"][1..] == ["A", "B"];
  }
}
