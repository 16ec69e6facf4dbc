/** The tenant configuration API of the backend: the public config merge, the
    admin editor (GET/PUT), the tenant list, id availability, creation with
    reactivation, and per-tenant GET/PUT/DELETE with soft deletion. The
    TenantConfig table is the `rows` field of a TenantDirectory; read-only views
    are functions of the table contents. */
module TenantViews {
  import opened Common
  import opened JsonData
  import opened TenantData
  import opened TenantValidation

  datatype Method = Get | Put | Post | Delete | OtherMethod

  datatype Response = Response(status: nat, body: map<string, Json>)

  function ErrorResponse(status: nat, message: string): Response {
    Response(status, map["error" := JStr(message)])
  }

  /** An exception escaping a view: Django answers with a server error. */
  const ServerError: Response := Response(500, map[])

  /** What the allowed-methods decorator answers to any other HTTP method. */
  const MethodNotAllowed: Response := Response(405, map[])

  const DefaultPrimary: string := "#1976d2"
  const DefaultSecondary: string := "#424242"

  function OptStr(o: Option<string>): (j: Json)
    ensures o.None? <==> j == JNull
  {
    if o.Some? then JStr(o.value) else JNull
  }

  /** A dictionary lookup with a fallback for a missing key. */
  function Lookup(d: map<string, Json>, key: string, default: Json): Json {
    if key in d then d[key] else default
  }

  function JStrs(ss: seq<string>): (j: Json)
    ensures j.JArr? && |j.items| == |ss|
  {
    JArr(seq(|ss|, i requires 0 <= i < |ss| => JStr(ss[i])))
  }

  /** A row as the API returns it. */
  function RowDict(r: TenantRow): map<string, Json> {
    map["tenantId" := JStr(r.tenantId), "name" := OptStr(r.name),
        "primaryColor" := r.primaryColor, "secondaryColor" := r.secondaryColor,
        "logoUrl" := OptStr(r.logoUrl), "bannerImage" := OptStr(r.bannerImage),
        "sectionImages" := r.sectionImages, "sectionDescriptions" := r.sectionDescriptions,
        "features" := r.features, "departments" := r.departments, "settings" := r.settings,
        "hosters" := r.hosters, "isActive" := JBool(r.isActive)]
  }

  /** Replaces the row with the same id, or appends the row when there is none. */
  function Upsert(rows: seq<TenantRow>, row: TenantRow): (r: seq<TenantRow>)
    ensures HasRow(rows, row.tenantId) ==> |r| == |rows|
    ensures !HasRow(rows, row.tenantId) ==> r == rows + [row]
  {
    if HasRow(rows, row.tenantId) then rows[RowIndex(rows, row.tenantId) := row] else rows + [row]
  }

  function RowIndex(rows: seq<TenantRow>, id: string): (i: nat)
    requires HasRow(rows, id)
    ensures i < |rows| && rows[i].tenantId == id
    ensures FindRow(rows, id) == Some(rows[i])
  {
    if rows[0].tenantId == id then 0
    else
      assert HasRow(rows[1..], id) by {
        var k :| 0 <= k < |rows| && rows[k].tenantId == id;
        assert rows[1..][k - 1] == rows[k];
      }
      1 + RowIndex(rows[1..], id)
  }

  /** Writing a row keeps ids unique, makes that row the one found under its id, and
      leaves every other id's row as it was. */
  lemma {:induction false} UpsertFacts(rows: seq<TenantRow>, row: TenantRow)
    requires DistinctIds(rows)
    ensures DistinctIds(Upsert(rows, row))
    ensures FindRow(Upsert(rows, row), row.tenantId) == Some(row)
    ensures forall id :: id != row.tenantId ==> FindRow(Upsert(rows, row), id) == FindRow(rows, id)
  {
    var r := Upsert(rows, row);
    if HasRow(rows, row.tenantId) {
      var i := RowIndex(rows, row.tenantId);
      FindRowFirst(r, i);
      forall id | id != row.tenantId ensures FindRow(r, id) == FindRow(rows, id) {
        if HasRow(rows, id) {
          var k := RowIndex(rows, id);
          assert r[k] == rows[k];
          FindRowFirst(r, k);
        } else {
          forall k | 0 <= k < |r| && k != i ensures r[k] == rows[k] { }
          assert !HasRow(r, id);
        }
      }
    } else {
      assert DistinctIds(r) by {
        forall i, j | 0 <= i < j < |r| ensures r[i].tenantId != r[j].tenantId {
          if j == |rows| {
            assert r[i] == rows[i];
          }
        }
      }
      FindRowFirst(r, |rows|);
      forall id | id != row.tenantId ensures FindRow(r, id) == FindRow(rows, id) {
        if HasRow(rows, id) {
          var k := RowIndex(rows, id);
          assert r[k] == rows[k];
          FindRowFirst(r, k);
        } else {
          forall k | 0 <= k < |rows| ensures r[k] == rows[k] { }
          assert !HasRow(r, id);
        }
      }
    }
  }

  /** Writing a row whose hosters are well formed keeps every row's hosters well formed. */
  lemma UpsertKeepsHosterShape(rows: seq<TenantRow>, row: TenantRow)
    requires HostersWellFormed(rows) && HosterShape(row.hosters)
    ensures HostersWellFormed(Upsert(rows, row))
  {
  }

  /** With unique ids, the lookup finds the row at any index holding the id. */
  lemma {:induction false} FindRowFirst(rows: seq<TenantRow>, i: nat)
    requires DistinctIds(rows) && i < |rows|
    ensures FindRow(rows, rows[i].tenantId) == Some(rows[i])
  {
    if i > 0 {
      assert DistinctIds(rows[1..]) by {
        forall a, b | 0 <= a < b < |rows[1..]| ensures rows[1..][a].tenantId != rows[1..][b].tenantId {
          assert rows[1..][a] == rows[a + 1] && rows[1..][b] == rows[b + 1];
        }
      }
      assert rows[1..][i - 1] == rows[i];
      FindRowFirst(rows[1..], i - 1);
    }
  }

  // ---------------------------------------------------------------------------
  // GET /config: the public configuration merge
  // ---------------------------------------------------------------------------

  /** The answer when no tenant was resolved. */
  const DefaultPublicConfig: map<string, Json> :=
    map["tenantId" := JStr("default"), "name" := JStr("TPlanet AI"),
        "features" := JObj(map["ai_secretary" := JBool(true), "nft" := JBool(true)]),
        "theme" := JObj(map["primary_color" := JStr(DefaultPrimary), "secondary_color" := JStr(DefaultSecondary)])]

  /** The theme the public config reports: the static theme, with both colours taken
      from the row when the row's primary colour is set. */
  function MergedTheme(staticTheme: map<string, Json>, db: Option<TenantRow>): (r: map<string, Json>)
    ensures staticTheme.Keys <= r.Keys
  {
    if db.Some? && PyTruthy(db.value.primaryColor) then
      staticTheme["primary_color" := db.value.primaryColor]["secondary_color" := db.value.secondaryColor]
    else staticTheme
  }

  /** The configuration the front end loads: static values, each overridable by a
      truthy column of the tenant's row (any row, active or not). */
  function TenantConfigView(tenant: Option<TenantInfo>, rows: seq<TenantRow>): (r: map<string, Json>)
    ensures tenant.None? ==> r == DefaultPublicConfig
    ensures tenant.Some? ==> "tenantId" in r && r["tenantId"] == JStr(tenant.value.tenantId)
  {
    if tenant.None? then DefaultPublicConfig
    else
      var t := tenant.value;
      var c := t.config;
      var db := FindRow(rows, t.tenantId);
      map["tenantId" := JStr(t.tenantId),
          "name" := OptStr(if db.Some? then db.value.name else t.name),
          "logoUrl" := (if db.Some? && db.value.logoUrl.Some? && db.value.logoUrl.value != ""
                        then JStr(db.value.logoUrl.value) else Lookup(c.theme, "logo_url", JStr(""))),
          "brandName" := OptStr(if c.brandName.Some? then c.brandName else t.name),
          "features" := (if db.Some? && PyTruthy(db.value.features) then db.value.features else c.features),
          "theme" := JObj(MergedTheme(c.theme, db)),
          "settings" := (if db.Some? && PyTruthy(db.value.settings) then db.value.settings else c.settings),
          "hosters" := (if db.Some? && PyTruthy(db.value.hosters) then db.value.hosters else c.hosters),
          "departments" := (if db.Some? && PyTruthy(db.value.departments) then db.value.departments else c.departments),
          "superusers" := c.superusers, "districts" := c.districts, "regions" := c.regions,
          "socialLinks" := c.socialLinks, "privacyUrl" := c.privacyUrl]
  }

  /** A row whose overridable columns are all empty changes nothing but the name. */
  lemma EmptyRowOnlyRenames(t: TenantInfo, rows: seq<TenantRow>)
    requires FindRow(rows, t.tenantId).Some?
    requires var row := FindRow(rows, t.tenantId).value;
             !PyTruthy(row.features) && !PyTruthy(row.settings) && !PyTruthy(row.hosters)
             && !PyTruthy(row.departments) && !PyTruthy(row.primaryColor)
             && (row.logoUrl.None? || row.logoUrl.value == "")
    ensures TenantConfigView(Some(t), rows)
            == TenantConfigView(Some(t), [])["name" := OptStr(FindRow(rows, t.tenantId).value.name)]
  {
  }

  /** With a row, each overridable column is the row's value when it is truthy and the
      static value (what the view shows without any row) otherwise. */
  lemma TruthyColumnsOverride(t: TenantInfo, rows: seq<TenantRow>)
    requires FindRow(rows, t.tenantId).Some?
    ensures var r := TenantConfigView(Some(t), rows);
            var bare := TenantConfigView(Some(t), []);
            var row := FindRow(rows, t.tenantId).value;
            && r["features"] == (if PyTruthy(row.features) then row.features else bare["features"])
            && r["settings"] == (if PyTruthy(row.settings) then row.settings else bare["settings"])
            && r["hosters"] == (if PyTruthy(row.hosters) then row.hosters else bare["hosters"])
            && r["departments"] == (if PyTruthy(row.departments) then row.departments else bare["departments"])
  {
  }

  /** The merged theme keeps every static key; only the two colours can come from the
      row, and only together, when the row's primary colour is set. */
  lemma ThemeOverrideOnlyColours(staticTheme: map<string, Json>, db: Option<TenantRow>)
    ensures forall k :: k in staticTheme ==> k in MergedTheme(staticTheme, db)
    ensures forall k :: k in MergedTheme(staticTheme, db) && k != "primary_color" && k != "secondary_color"
                        ==> k in staticTheme && MergedTheme(staticTheme, db)[k] == staticTheme[k]
    ensures db.Some? && PyTruthy(db.value.primaryColor) ==>
              MergedTheme(staticTheme, db)["primary_color"] == db.value.primaryColor
              && MergedTheme(staticTheme, db)["secondary_color"] == db.value.secondaryColor
    ensures !(db.Some? && PyTruthy(db.value.primaryColor)) ==> MergedTheme(staticTheme, db) == staticTheme
  {
  }

  // ---------------------------------------------------------------------------
  // /admin/config
  // ---------------------------------------------------------------------------

  /** The editable configuration: a row's columns when the tenant has a row (colours
      and images even when empty), otherwise the static theme with the stock colours. */
  function AdminConfigGet(tenant: Option<TenantInfo>, rows: seq<TenantRow>): (r: Response)
    ensures tenant.None? <==> r.status == 400
    ensures tenant.Some? ==> r.status == 200 && "tenantId" in r.body && r.body["tenantId"] == JStr(tenant.value.tenantId)
  {
    if tenant.None? then ErrorResponse(400, "No tenant context")
    else
      var t := tenant.value;
      var c := t.config;
      var db := FindRow(rows, t.tenantId);
      Response(200, map[
        "tenantId" := JStr(t.tenantId),
        "name" := OptStr(if db.Some? then db.value.name else t.name),
        "primaryColor" := (if db.Some? then db.value.primaryColor else Lookup(c.theme, "primary_color", JStr(DefaultPrimary))),
        "secondaryColor" := (if db.Some? then db.value.secondaryColor else Lookup(c.theme, "secondary_color", JStr(DefaultSecondary))),
        "logoUrl" := (if db.Some? then OptStr(db.value.logoUrl) else Lookup(c.theme, "logo_url", JNull)),
        "bannerImage" := (if db.Some? then OptStr(db.value.bannerImage) else JNull),
        "sectionImages" := (if db.Some? then db.value.sectionImages else EmptyObject),
        "sectionDescriptions" := (if db.Some? then db.value.sectionDescriptions else EmptyObject),
        "features" := (if db.Some? && PyTruthy(db.value.features) then db.value.features else c.features),
        "departments" := (if db.Some? && PyTruthy(db.value.departments) then db.value.departments else c.departments),
        "settings" := (if db.Some? && PyTruthy(db.value.settings) then db.value.settings else c.settings),
        "hosters" := (if db.Some? && PyTruthy(db.value.hosters) then db.value.hosters else c.hosters)])
  }

  /** The editor shows the colours of the tenant's row. */
  lemma AdminGetShowsRowColours(t: TenantInfo, rows: seq<TenantRow>, row: TenantRow)
    requires FindRow(rows, t.tenantId) == Some(row)
    ensures var b := AdminConfigGet(Some(t), rows).body;
            && "primaryColor" in b && "secondaryColor" in b
            && b["primaryColor"] == row.primaryColor && b["secondaryColor"] == row.secondaryColor
  {
  }

  predicate AllStrings(items: seq<Json>) {
    forall i :: 0 <= i < |items| ==> items[i].JStr?
  }

  /** Each validated field of an admin PUT body, in the order the view checks them,
      with the message reported when it fails. */
  function AdminFieldChecks(d: map<string, Json>): (cs: seq<(Check, string)>)
    ensures |cs| == 9
  {
    [ (ColorCheck(d, "primaryColor"), "primaryColor must be a valid hex color (e.g., #1976d2)"),
      (ColorCheck(d, "secondaryColor"), "secondaryColor must be a valid hex color (e.g., #424242)"),
      (UrlCheck(d, "logoUrl"), "logoUrl must be a relative path or valid URL"),
      (UrlCheck(d, "bannerImage"), "bannerImage must be a relative path or valid URL"),
      (ShapeCheck(d, "features", true), "features must be an object"),
      (ShapeCheck(d, "departments", false), "departments must be an array"),
      (ShapeCheck(d, "settings", true), "settings must be an object"),
      (ShapeCheck(d, "hosters", false), "hosters must be an array of email addresses"),
      (HosterItemsCheck(d), "hosters must contain only string values") ]
  }

  /** A colour is checked only when present and truthy. */
  function ColorCheck(d: map<string, Json>, key: string): Check {
    if key in d && PyTruthy(d[key]) then ValidateHexColor(d[key]) else Pass
  }

  /** A URL is checked whenever present. */
  function UrlCheck(d: map<string, Json>, key: string): Check {
    if key in d then ValidateUrl(d[key]) else Pass
  }

  /** A present member must be an object (`dict`) or an array (`list`). */
  function ShapeCheck(d: map<string, Json>, key: string, dict: bool): Check {
    if key in d && !(if dict then IsDict(d[key]) else IsList(d[key])) then Fail else Pass
  }

  /** The hosters, when an array, must hold strings only. */
  function HosterItemsCheck(d: map<string, Json>): Check {
    if "hosters" in d && IsList(d["hosters"]) && !AllStrings(d["hosters"].items) then Fail else Pass
  }

  /** The messages of the failed checks, in check order. */
  function FailedMessages(cs: seq<(Check, string)>): seq<string> {
    if cs == [] then []
    else FailedMessages(cs[..|cs| - 1]) + (if cs[|cs| - 1].0 == Fail then [cs[|cs| - 1].1] else [])
  }

  predicate AnyCrash(cs: seq<(Check, string)>) {
    exists i :: 0 <= i < |cs| && cs[i].0 == Crash
  }

  /** Every failing check is reported, and only failing checks are. */
  lemma {:induction false} FailedMessagesExact(cs: seq<(Check, string)>)
    ensures forall m :: m in FailedMessages(cs) <==> exists i :: 0 <= i < |cs| && cs[i].0 == Fail && cs[i].1 == m
  {
    if cs != [] {
      var init := cs[..|cs| - 1];
      FailedMessagesExact(init);
      forall m ensures m in FailedMessages(cs) <==> exists i :: 0 <= i < |cs| && cs[i].0 == Fail && cs[i].1 == m {
        if m in FailedMessages(init) {
          var i :| 0 <= i < |init| && init[i].0 == Fail && init[i].1 == m;
          assert cs[i] == init[i];
        }
        if exists i :: 0 <= i < |cs| && cs[i].0 == Fail && cs[i].1 == m {
          var i :| 0 <= i < |cs| && cs[i].0 == Fail && cs[i].1 == m;
          if i < |init| {
            assert init[i] == cs[i];
          }
        }
      }
    }
  }

  /** The update an accepted admin PUT applies: each key present in the body replaces
      its column; a name that sanitises to nothing keeps the old name. */
  function ApplyAdminPut(row: TenantRow, d: map<string, Json>): (r: TenantRow)
    ensures r.tenantId == row.tenantId && r.isActive == row.isActive
    ensures "hosters" in d ==> r.hosters == d["hosters"]
  {
    var name := if "name" in d then Sanitize(d["name"], 200) else None;
    row.(name := if name.Some? && name.value != "" then name else row.name,
         primaryColor := Lookup(d, "primaryColor", row.primaryColor),
         secondaryColor := Lookup(d, "secondaryColor", row.secondaryColor),
         logoUrl := if "logoUrl" in d then Sanitize(d["logoUrl"], 2000) else row.logoUrl,
         bannerImage := if "bannerImage" in d then Sanitize(d["bannerImage"], 2000) else row.bannerImage,
         sectionImages := Lookup(d, "sectionImages", row.sectionImages),
         sectionDescriptions := Lookup(d, "sectionDescriptions", row.sectionDescriptions),
         features := Lookup(d, "features", row.features),
         departments := Lookup(d, "departments", row.departments),
         settings := Lookup(d, "settings", row.settings),
         hosters := Lookup(d, "hosters", row.hosters))
  }

  /** Keys missing from the body leave their columns as they were; id and activity are
      never touched; an empty or non-string name keeps the old name. */
  lemma AdminPutKeepsAbsentKeys(row: TenantRow, d: map<string, Json>)
    ensures ApplyAdminPut(row, d).tenantId == row.tenantId && ApplyAdminPut(row, d).isActive == row.isActive
    ensures ("name" !in d || Sanitize(d["name"], 200).None? || Sanitize(d["name"], 200) == Some(""))
            ==> ApplyAdminPut(row, d).name == row.name
    ensures "primaryColor" !in d ==> ApplyAdminPut(row, d).primaryColor == row.primaryColor
    ensures "secondaryColor" !in d ==> ApplyAdminPut(row, d).secondaryColor == row.secondaryColor
    ensures "logoUrl" !in d ==> ApplyAdminPut(row, d).logoUrl == row.logoUrl
    ensures "bannerImage" !in d ==> ApplyAdminPut(row, d).bannerImage == row.bannerImage
    ensures "sectionImages" !in d ==> ApplyAdminPut(row, d).sectionImages == row.sectionImages
    ensures "sectionDescriptions" !in d ==> ApplyAdminPut(row, d).sectionDescriptions == row.sectionDescriptions
    ensures "features" !in d ==> ApplyAdminPut(row, d).features == row.features
    ensures "departments" !in d ==> ApplyAdminPut(row, d).departments == row.departments
    ensures "settings" !in d ==> ApplyAdminPut(row, d).settings == row.settings
    ensures "hosters" !in d ==> ApplyAdminPut(row, d).hosters == row.hosters
  {
  }

  /** An empty admin PUT body changes nothing. */
  lemma AdminPutEmptyBody(row: TenantRow)
    ensures ApplyAdminPut(row, map[]) == row
  {
    AdminPutKeepsAbsentKeys(row, map[]);
  }

  lemma NoFailureReported(cs: seq<(Check, string)>)
    requires FailedMessages(cs) == []
    ensures forall i :: 0 <= i < |cs| ==> cs[i].0 != Fail
  {
    FailedMessagesExact(cs);
  }

  /** The verdict on a list of checks: None when one of them raised, otherwise the
      messages of the failed ones. */
  function CheckOutcome(cs: seq<(Check, string)>): (r: Option<seq<string>>)
    ensures r.None? <==> AnyCrash(cs)
  {
    if AnyCrash(cs) then None else Some(FailedMessages(cs))
  }

  /** Runs the checks in order, collecting the failure messages; a raising check ends
      the run. */
  method CollectErrors(checks: seq<(Check, string)>) returns (errors: Option<seq<string>>)
    ensures errors == CheckOutcome(checks)
  {
    var messages: seq<string> := [];
    for k := 0 to |checks|
      invariant messages == FailedMessages(checks[..k])
      invariant !AnyCrash(checks[..k])
    {
      assert checks[..k + 1][..k] == checks[..k];
      if checks[k].0 == Crash {
        return None;
      }
      if checks[k].0 == Fail {
        messages := messages + [checks[k].1];
      }
    }
    assert checks[..|checks|] == checks;
    return Some(messages);
  }

  /** A successful write, answered with the saved row. */
  function Saved(message: string, row: TenantRow): Response {
    Response(200, map["success" := JBool(true), "message" := JStr(message), "data" := JObj(RowDict(row))])
  }

  function ValidationFailed(errors: seq<string>): Response {
    Response(400, map["error" := JStr("Validation failed"), "details" := JStrs(errors)])
  }

  // ---------------------------------------------------------------------------
  // GET /tenants: the merged tenant list
  // ---------------------------------------------------------------------------

  /** Code-point order on strings, as Python compares them. */
  predicate StrLe(a: string, b: string)
    decreases |a|
  {
    a == [] || (b != [] && (a[0] < b[0] || (a[0] == b[0] && StrLe(a[1..], b[1..]))))
  }

  lemma {:induction false} StrLeTotal(a: string, b: string)
    ensures StrLe(a, b) || StrLe(b, a)
    decreases |a|
  {
    if a != [] && b != [] && a[0] == b[0] {
      StrLeTotal(a[1..], b[1..]);
    }
  }

  lemma {:induction false} StrLeTransitive(a: string, b: string, c: string)
    requires StrLe(a, b) && StrLe(b, c)
    ensures StrLe(a, c)
    decreases |a|
  {
    if a != [] && a[0] == b[0] && b[0] == c[0] {
      StrLeTransitive(a[1..], b[1..], c[1..]);
    }
  }

  lemma {:induction false} StrLeAntisymmetric(a: string, b: string)
    requires StrLe(a, b) && StrLe(b, a)
    ensures a == b
    decreases |a|
  {
    if a != [] {
      StrLeAntisymmetric(a[1..], b[1..]);
      assert a == [a[0]] + a[1..] && b == [b[0]] + b[1..];
    }
  }

  /** One entry of the tenant list: its id and the object returned for it. */
  datatype Listed = Listed(tenantId: string, fields: map<string, Json>)

  predicate SortedById(s: seq<Listed>) {
    forall i, j :: 0 <= i < j < |s| ==> StrLe(s[i].tenantId, s[j].tenantId)
  }

  /** Inserts x behind every entry whose id does not exceed its own (so equal ids keep
      their order, as in Python's stable sort). */
  function InsertById(s: seq<Listed>, x: Listed): (r: seq<Listed>)
    ensures |r| == |s| + 1
    decreases |s|
  {
    if s == [] || StrLe(s[|s| - 1].tenantId, x.tenantId) then s + [x]
    else InsertById(s[..|s| - 1], x) + [s[|s| - 1]]
  }

  /** Python's stable sort of the entries by tenant id. */
  function SortById(s: seq<Listed>): (r: seq<Listed>)
    ensures |r| == |s|
  {
    if s == [] then [] else InsertById(SortById(s[..|s| - 1]), s[|s| - 1])
  }

  lemma {:induction false} InsertByIdPermutes(s: seq<Listed>, x: Listed)
    ensures multiset(InsertById(s, x)) == multiset(s) + multiset{x}
    decreases |s|
  {
    if !(s == [] || StrLe(s[|s| - 1].tenantId, x.tenantId)) {
      InsertByIdPermutes(s[..|s| - 1], x);
      MultisetSnoc(s);
    }
  }

  lemma {:induction false} InsertByIdFacts(s: seq<Listed>, x: Listed)
    requires SortedById(s)
    ensures SortedById(InsertById(s, x))
    ensures multiset(InsertById(s, x)) == multiset(s) + multiset{x}
    decreases |s|
  {
    InsertByIdPermutes(s, x);
    if s == [] || StrLe(s[|s| - 1].tenantId, x.tenantId) {
      var r := s + [x];
      forall i, j | 0 <= i < j < |r| ensures StrLe(r[i].tenantId, r[j].tenantId) {
        if j == |s| && i < |s| - 1 {
          StrLeTransitive(s[i].tenantId, s[|s| - 1].tenantId, x.tenantId);
        }
      }
    } else {
      var init := s[..|s| - 1];
      var last := s[|s| - 1];
      assert SortedById(init);
      InsertByIdFacts(init, x);
      var front := InsertById(init, x);
      BelowLast(init, last, x);
      var r := front + [last];
      assert SortedById(r) by {
        forall i, j | 0 <= i < j < |r| ensures StrLe(r[i].tenantId, r[j].tenantId) {
          if j == |front| {
            assert r[i] == front[i] && front[i] in front;
          }
        }
      }
      assert s == init + [last];
    }
  }

  /** When x goes before `last`, everything inserted in front of it is no greater. */
  lemma BelowLast(init: seq<Listed>, last: Listed, x: Listed)
    requires forall i :: 0 <= i < |init| ==> StrLe(init[i].tenantId, last.tenantId)
    requires !StrLe(last.tenantId, x.tenantId)
    ensures forall e :: e in InsertById(init, x) ==> StrLe(e.tenantId, last.tenantId)
  {
    InsertByIdPermutes(init, x);
    StrLeTotal(last.tenantId, x.tenantId);
    forall e | e in InsertById(init, x) ensures StrLe(e.tenantId, last.tenantId) {
      assert e in multiset(InsertById(init, x));
      if e != x {
        assert e in multiset(init);
      }
    }
  }

  lemma {:induction false} SortByIdFacts(s: seq<Listed>)
    ensures SortedById(SortById(s))
    ensures multiset(SortById(s)) == multiset(s)
  {
    if s != [] {
      SortByIdFacts(s[..|s| - 1]);
      InsertByIdFacts(SortById(s[..|s| - 1]), s[|s| - 1]);
      MultisetSnoc(s);
    }
  }

  /** The active rows, each as the API returns it. */
  function ActiveEntries(rows: seq<TenantRow>): (es: seq<Listed>)
    ensures forall e :: e in es <==> exists k :: 0 <= k < |rows| && rows[k].isActive && e == Listed(rows[k].tenantId, RowDict(rows[k]))
  {
    if rows == [] then []
    else
      var rest := ActiveEntries(rows[1..]);
      assert forall e :: e in rest <==> exists k :: 1 <= k < |rows| && rows[k].isActive && e == Listed(rows[k].tenantId, RowDict(rows[k])) by {
        forall e ensures e in rest <==> exists k :: 1 <= k < |rows| && rows[k].isActive && e == Listed(rows[k].tenantId, RowDict(rows[k])) {
          if e in rest {
            var k :| 0 <= k < |rows[1..]| && rows[1..][k].isActive && e == Listed(rows[1..][k].tenantId, RowDict(rows[1..][k]));
            assert rows[k + 1] == rows[1..][k];
          }
          if exists k :: 1 <= k < |rows| && rows[k].isActive && e == Listed(rows[k].tenantId, RowDict(rows[k])) {
            var k :| 1 <= k < |rows| && rows[k].isActive && e == Listed(rows[k].tenantId, RowDict(rows[k]));
            assert rows[1..][k - 1] == rows[k];
          }
        }
      }
      if rows[0].isActive then [Listed(rows[0].tenantId, RowDict(rows[0]))] + rest else rest
  }

  /** A static-file tenant as the list shows it. */
  function YamlDict(id: string, c: StaticTenant): (r: map<string, Json>)
    ensures r.Keys == {"tenantId", "name", "database", "primaryColor", "secondaryColor", "features", "hosters", "isActive", "source"}
    ensures r["tenantId"] == JStr(id) && r["isActive"] == JBool(true) && r["source"] == JStr("yaml")
    ensures c.name.None? ==> r["name"] == JStr(id)
    ensures c.databaseAlias.None? ==> r["database"] == JStr(id)
  {
    map["tenantId" := JStr(id), "name" := JStr(c.name.GetOr(id)), "database" := JStr(c.databaseAlias.GetOr(id)),
        "primaryColor" := Lookup(c.theme, "primary_color", JStr(DefaultPrimary)),
        "secondaryColor" := Lookup(c.theme, "secondary_color", JStr(DefaultSecondary)),
        "features" := c.features, "hosters" := c.hosters, "isActive" := JBool(true), "source" := JStr("yaml")]
  }

  /** A static-file tenant is listed from the file unless it is "default" or has a row. */
  predicate YamlShown(rows: seq<TenantRow>, p: (string, StaticTenant)) {
    p.0 != "default" && !HasRow(rows, p.0)
  }

  function YamlEntry(p: (string, StaticTenant)): Listed {
    Listed(p.0, YamlDict(p.0, p.1))
  }

  /** Static-file tenants other than "default" that have no row at all, active or not. */
  function YamlEntries(yaml: seq<(string, StaticTenant)>, rows: seq<TenantRow>): (es: seq<Listed>)
    ensures forall e :: e in es <==> exists k :: 0 <= k < |yaml| && YamlShown(rows, yaml[k]) && e == YamlEntry(yaml[k])
  {
    if yaml == [] then []
    else
      var rest := YamlEntries(yaml[1..], rows);
      var es := if YamlShown(rows, yaml[0]) then [YamlEntry(yaml[0])] + rest else rest;
      assert forall e | e in es :: exists k :: 0 <= k < |yaml| && YamlShown(rows, yaml[k]) && e == YamlEntry(yaml[k]) by {
        forall e | e in es ensures exists k :: 0 <= k < |yaml| && YamlShown(rows, yaml[k]) && e == YamlEntry(yaml[k]) {
          if e in rest {
            var k :| 0 <= k < |yaml[1..]| && YamlShown(rows, yaml[1..][k]) && e == YamlEntry(yaml[1..][k]);
            assert yaml[k + 1] == yaml[1..][k];
          } else {
            assert YamlShown(rows, yaml[0]) && e == YamlEntry(yaml[0]);
          }
        }
      }
      assert forall k | 0 <= k < |yaml| && YamlShown(rows, yaml[k]) :: YamlEntry(yaml[k]) in es by {
        forall k | 0 <= k < |yaml| && YamlShown(rows, yaml[k]) ensures YamlEntry(yaml[k]) in es {
          if k > 0 {
            assert yaml[1..][k - 1] == yaml[k];
          }
        }
      }
      es
  }

  /** The listed tenants: active rows in id order, then the unsuppressed static tenants
      (none when the static file fails to load), all sorted by id. */
  function ListedTenants(yaml: Option<seq<(string, StaticTenant)>>, rows: seq<TenantRow>): seq<Listed> {
    SortById(SortById(ActiveEntries(rows)) + (if yaml.Some? then YamlEntries(yaml.value, rows) else []))
  }

  function TenantList(yaml: Option<seq<(string, StaticTenant)>>, rows: seq<TenantRow>): (r: Response)
    ensures r.status == 200 && "tenants" in r.body && "count" in r.body && r.body["tenants"].JArr?
    ensures r.body["count"] == JNum(|r.body["tenants"].items|)
  {
    var listed := ListedTenants(yaml, rows);
    Response(200, map["tenants" := JArr(seq(|listed|, i requires 0 <= i < |listed| => JObj(listed[i].fields))),
                      "count" := JNum(|listed|)])
  }

  /** An id is listed exactly when it has an active row, or
      the static file defines it, it is not "default", and no row (not even a deleted one)
      carries it. */
  lemma TenantListContents(yaml: Option<seq<(string, StaticTenant)>>, rows: seq<TenantRow>, id: string)
    ensures (exists i :: 0 <= i < |ListedTenants(yaml, rows)| && ListedTenants(yaml, rows)[i].tenantId == id)
            <==> FindActiveRow(rows, id).Some?
                 || (yaml.Some? && id != "default" && !HasRow(rows, id) && exists k :: 0 <= k < |yaml.value| && yaml.value[k].0 == id)
  {
    ListedMembers(yaml, rows);
    var listed := ListedTenants(yaml, rows);
    if exists i :: 0 <= i < |listed| && listed[i].tenantId == id {
      var i :| 0 <= i < |listed| && listed[i].tenantId == id;
      ListedComesFromRowOrFile(yaml, rows, listed[i]);
    }
    if FindActiveRow(rows, id).Some? {
      ActiveRowListed(yaml, rows, id);
    } else if yaml.Some? && id != "default" && !HasRow(rows, id) && exists k :: 0 <= k < |yaml.value| && yaml.value[k].0 == id {
      var k :| 0 <= k < |yaml.value| && yaml.value[k].0 == id;
      StaticTenantListed(yaml.value, rows, k);
    }
  }

  lemma ListedComesFromRowOrFile(yaml: Option<seq<(string, StaticTenant)>>, rows: seq<TenantRow>, e: Listed)
    requires e in ActiveEntries(rows) || (yaml.Some? && e in YamlEntries(yaml.value, rows))
    ensures FindActiveRow(rows, e.tenantId).Some?
            || (yaml.Some? && e.tenantId != "default" && !HasRow(rows, e.tenantId)
                && exists k :: 0 <= k < |yaml.value| && yaml.value[k].0 == e.tenantId)
  {
    if e in ActiveEntries(rows) {
      var k :| 0 <= k < |rows| && rows[k].isActive && e == Listed(rows[k].tenantId, RowDict(rows[k]));
    }
  }

  lemma ActiveRowListed(yaml: Option<seq<(string, StaticTenant)>>, rows: seq<TenantRow>, id: string)
    requires FindActiveRow(rows, id).Some?
    requires forall e :: e in ListedTenants(yaml, rows) <==>
                         e in ActiveEntries(rows) || (yaml.Some? && e in YamlEntries(yaml.value, rows))
    ensures exists i :: 0 <= i < |ListedTenants(yaml, rows)| && ListedTenants(yaml, rows)[i].tenantId == id
  {
    var row := FindActiveRow(rows, id).value;
    var k :| 0 <= k < |rows| && rows[k] == row;
    var e := Listed(rows[k].tenantId, RowDict(rows[k]));
    assert e in ActiveEntries(rows);
    var listed := ListedTenants(yaml, rows);
    var i :| 0 <= i < |listed| && listed[i] == e;
  }

  lemma StaticTenantListed(yaml: seq<(string, StaticTenant)>, rows: seq<TenantRow>, k: nat)
    requires k < |yaml| && yaml[k].0 != "default" && !HasRow(rows, yaml[k].0)
    requires forall e :: e in ListedTenants(Some(yaml), rows) <==>
                         e in ActiveEntries(rows) || e in YamlEntries(yaml, rows)
    ensures exists i :: 0 <= i < |ListedTenants(Some(yaml), rows)| && ListedTenants(Some(yaml), rows)[i].tenantId == yaml[k].0
  {
    var e := Listed(yaml[k].0, YamlDict(yaml[k].0, yaml[k].1));
    assert e in YamlEntries(yaml, rows);
    var listed := ListedTenants(Some(yaml), rows);
    var i :| 0 <= i < |listed| && listed[i] == e;
  }

  /** The list comes out in id order. */
  lemma ListedTenantsSorted(yaml: Option<seq<(string, StaticTenant)>>, rows: seq<TenantRow>)
    ensures SortedById(ListedTenants(yaml, rows))
  {
    SortByIdFacts(SortById(ActiveEntries(rows)) + (if yaml.Some? then YamlEntries(yaml.value, rows) else []));
  }

  /** Sorting loses and invents nothing: the listed entries are the active rows and the
      unsuppressed static tenants. */
  lemma ListedMembers(yaml: Option<seq<(string, StaticTenant)>>, rows: seq<TenantRow>)
    ensures forall e :: e in ListedTenants(yaml, rows) <==>
                        e in ActiveEntries(rows) || (yaml.Some? && e in YamlEntries(yaml.value, rows))
  {
    var db := ActiveEntries(rows);
    var ys := if yaml.Some? then YamlEntries(yaml.value, rows) else [];
    SortByIdFacts(db);
    SortByIdFacts(SortById(db) + ys);
    forall e ensures e in ListedTenants(yaml, rows) <==> e in db || e in ys {
      assert e in ListedTenants(yaml, rows) <==> e in multiset(SortById(db) + ys);
      assert e in SortById(db) <==> e in multiset(db);
    }
  }

  // ---------------------------------------------------------------------------
  // GET /tenants/validate/<id>
  // ---------------------------------------------------------------------------

  function ValidateTenantIdView(id: string, rows: seq<TenantRow>): (r: Response)
    ensures r.status == 200 && "tenantId" in r.body && "available" in r.body && r.body["tenantId"] == JStr(id)
    ensures r.body["available"] == JBool(true) <==> forall k :: 0 <= k < |rows| && rows[k].tenantId == id ==> !rows[k].isActive
  {
    Response(200, map["tenantId" := JStr(id), "available" := JBool(FindActiveRow(rows, id).None?)])
  }

  // ---------------------------------------------------------------------------
  // The TenantConfig table and the views that change it
  // ---------------------------------------------------------------------------

  /** The request of a tenant creation that passes every check, broken into its parts. */
  predicate CreateAccepted(rows: seq<TenantRow>, body: Option<map<string, Json>>) {
    CreateRejection(rows, body).None?
  }

  /** Why a creation request is refused, in the order the view checks; None when the
      tenant is created (or reactivated). */
  function CreateRejection(rows: seq<TenantRow>, body: Option<map<string, Json>>): (r: Option<Response>)
    ensures r.None? ==> body.Some? && "tenantId" in body.value && body.value["tenantId"].JStr?
                        && IsValidTenantId(body.value["tenantId"].s)
                        && "name" in body.value && PyTruthy(body.value["name"])
                        && FindActiveRow(rows, body.value["tenantId"].s).None?
                        && HosterShape(Lookup(body.value, "hosters", EmptyArray))
  {
    if body.None? then Some(ErrorResponse(400, "Invalid JSON"))
    else
      var d := body.value;
      var tid := Lookup(d, "tenantId", JNull);
      var name := Lookup(d, "name", JNull);
      if !PyTruthy(tid) then Some(ErrorResponse(400, "tenantId is required"))
      else if !PyTruthy(name) then Some(ErrorResponse(400, "name is required"))
      else if !tid.JStr? then Some(ServerError)
      else if !IsValidTenantId(tid.s) then
        Some(ErrorResponse(400, "tenantId must be lowercase alphanumeric with hyphens (e.g., my-tenant)"))
      else if FindActiveRow(rows, tid.s).Some? then Some(ErrorResponse(400, "Tenant '" + tid.s + "' already exists"))
      else
        var cs := CreateColourChecks(d);
        if AnyCrash(cs) then Some(ServerError)
        else if FailedMessages(cs) != [] then Some(ValidationFailed(FailedMessages(cs)))
        else
          var hosters := Lookup(d, "hosters", EmptyArray);
          if PyTruthy(hosters) && !IsList(hosters) then Some(ErrorResponse(400, "hosters must be an array"))
          else None
  }

  function CreateColourChecks(d: map<string, Json>): seq<(Check, string)> {
    [ (if "primaryColor" in d && PyTruthy(d["primaryColor"]) then ValidateHexColor(d["primaryColor"]) else Pass,
       "primaryColor must be a valid hex color"),
      (if "secondaryColor" in d && PyTruthy(d["secondaryColor"]) then ValidateHexColor(d["secondaryColor"]) else Pass,
       "secondaryColor must be a valid hex color") ]
  }

  /** The outcome of DELETE /tenants/<id> on an existing row: which clean-up steps are
      reported, given whether the DNS deletion and the env-router unbinding succeeded. */
  function DeleteCleaned(row: TenantRow, dnsDeleted: bool, unbound: bool): (cleaned: seq<string>)
    ensures "db(deactivated)" in cleaned
    ensures "dns" in cleaned <==> dnsDeleted
    ensures "hosters(detached)" in cleaned <==> PyTruthy(row.hosters)
    ensures "env_router(unbound)" in cleaned <==> unbound
  {
    (if dnsDeleted then ["dns"] else []) + (if PyTruthy(row.hosters) then ["hosters(detached)"] else [])
    + ["db(deactivated)"] + (if unbound then ["env_router(unbound)"] else [])
  }

  function DeletedResponse(id: string, cleaned: seq<string>): Response {
    Response(200, map["success" := JBool(true), "message" := JStr("Tenant '" + id + "' deleted"),
                      "cleaned" := JStrs(cleaned)])
  }

  /** A soft-deleted row: inactive, with its hosters detached. */
  function Deactivated(row: TenantRow): (r: TenantRow)
    ensures r.tenantId == row.tenantId && !r.isActive && !PyTruthy(r.hosters)
  {
    row.(isActive := false, hosters := EmptyArray)
  }

  /** What PUT /tenants/<id> makes of a row: the first rejected field ends the request
      with nothing saved; otherwise every present key is applied. */
  datatype PutOutcome = Updated(row: TenantRow) | Rejected(response: Response)

  function DetailPut(row: TenantRow, body: Option<map<string, Json>>): (r: PutOutcome)
    ensures r.Updated? ==> r.row.tenantId == row.tenantId
    ensures r.Updated? && HosterShape(row.hosters) ==> HosterShape(r.row.hosters)
  {
    if body.None? then Rejected(ErrorResponse(400, "Invalid JSON"))
    else
      var d := body.value;
      var p := ColorCheck(d, "primaryColor");
      var s := ColorCheck(d, "secondaryColor");
      if p == Crash then Rejected(ServerError)
      else if p == Fail then Rejected(ErrorResponse(400, "Invalid primaryColor"))
      else if s == Crash then Rejected(ServerError)
      else if s == Fail then Rejected(ErrorResponse(400, "Invalid secondaryColor"))
      else if "hosters" in d && !IsList(d["hosters"]) then Rejected(ErrorResponse(400, "hosters must be an array"))
      else
        var name := if "name" in d then Sanitize(d["name"], 200) else None;
        Updated(row.(name := if name.Some? && name.value != "" then name else row.name,
                     primaryColor := Lookup(d, "primaryColor", row.primaryColor),
                     secondaryColor := Lookup(d, "secondaryColor", row.secondaryColor),
                     logoUrl := if "logoUrl" in d then Sanitize(d["logoUrl"], 2000) else row.logoUrl,
                     bannerImage := if "bannerImage" in d then Sanitize(d["bannerImage"], 2000) else row.bannerImage,
                     features := Lookup(d, "features", row.features),
                     departments := Lookup(d, "departments", row.departments),
                     settings := Lookup(d, "settings", row.settings),
                     hosters := Lookup(d, "hosters", row.hosters),
                     isActive := if "isActive" in d then PyTruthy(d["isActive"]) else row.isActive))
  }

  /** PUT /tenants/<id> checks primaryColor, then secondaryColor, then hosters, and the
      first failure decides the answer; an accepted body applies each present key (a name
      only when it sanitises to something, isActive by truthiness) and keeps every absent
      one, and never touches the section columns. */
  lemma DetailPutEffects(row: TenantRow, d: map<string, Json>)
    ensures var p, s := ColorCheck(d, "primaryColor"), ColorCheck(d, "secondaryColor");
            var badHosters := "hosters" in d && !IsList(d["hosters"]);
            (p == Crash ==> DetailPut(row, Some(d)) == Rejected(ServerError))
            && (p == Fail ==> DetailPut(row, Some(d)) == Rejected(ErrorResponse(400, "Invalid primaryColor")))
            && (p == Pass && s == Crash ==> DetailPut(row, Some(d)) == Rejected(ServerError))
            && (p == Pass && s == Fail ==> DetailPut(row, Some(d)) == Rejected(ErrorResponse(400, "Invalid secondaryColor")))
            && (p == Pass && s == Pass && badHosters ==>
                  DetailPut(row, Some(d)) == Rejected(ErrorResponse(400, "hosters must be an array")))
            && (DetailPut(row, Some(d)).Updated? <==> p == Pass && s == Pass && !badHosters)
    ensures var r := DetailPut(row, Some(d));
            r.Updated? ==>
              var n := r.row;
              n.tenantId == row.tenantId
              && n.sectionImages == row.sectionImages && n.sectionDescriptions == row.sectionDescriptions
              && (n.name == if "name" in d && Sanitize(d["name"], 200).Some? && Sanitize(d["name"], 200) != Some("")
                            then Sanitize(d["name"], 200) else row.name)
              && (n.primaryColor == if "primaryColor" in d then d["primaryColor"] else row.primaryColor)
              && (n.secondaryColor == if "secondaryColor" in d then d["secondaryColor"] else row.secondaryColor)
              && (n.logoUrl == if "logoUrl" in d then Sanitize(d["logoUrl"], 2000) else row.logoUrl)
              && (n.bannerImage == if "bannerImage" in d then Sanitize(d["bannerImage"], 2000) else row.bannerImage)
              && (n.features == if "features" in d then d["features"] else row.features)
              && (n.departments == if "departments" in d then d["departments"] else row.departments)
              && (n.settings == if "settings" in d then d["settings"] else row.settings)
              && (n.hosters == if "hosters" in d then d["hosters"] else row.hosters)
              && ("hosters" in d ==> IsList(n.hosters))
              && (n.isActive == if "isActive" in d then PyTruthy(d["isActive"]) else row.isActive)
  {
  }

  class TenantDirectory {
    /** The TenantConfig table. */
    var rows: seq<TenantRow>
    /** The column values of a freshly inserted row, for the columns an insert leaves to
        their defaults. */
    const blank: TenantRow

    ghost predicate Valid()
      reads this`rows
    {
      DistinctIds(rows) && HostersWellFormed(rows) && blank.isActive && HosterShape(blank.hosters)
    }

    constructor (rows: seq<TenantRow>, blank: TenantRow)
      requires DistinctIds(rows) && HostersWellFormed(rows) && blank.isActive && HosterShape(blank.hosters)
      ensures Valid() && this.rows == rows && this.blank == blank
    {
      this.rows := rows;
      this.blank := blank;
    }

    /** The tenant's row, or a new row named after the tenant when it has none. */
    function GetOrCreate(t: TenantInfo, rows: seq<TenantRow>): (row: TenantRow)
      ensures row.tenantId == t.tenantId
      ensures FindRow(rows, t.tenantId).Some? ==> row == FindRow(rows, t.tenantId).value
    {
      if FindRow(rows, t.tenantId).Some? then FindRow(rows, t.tenantId).value
      else blank.(tenantId := t.tenantId, name := t.name)
    }

    /** The whole admin editor: the answer and the table afterwards. */
    function AdminConfigSpec(m: Method, tenant: Option<TenantInfo>, body: Option<map<string, Json>>,
                             rows: seq<TenantRow>): (Response, seq<TenantRow>)
    {
      if m != Get && m != Put then (MethodNotAllowed, rows)
      else if tenant.None? then (ErrorResponse(400, "No tenant context"), rows)
      else if m == Get then (AdminConfigGet(tenant, rows), rows)
      else if body.None? then (ErrorResponse(400, "Invalid JSON"), rows)
      else AdminPutSpec(tenant.value, body.value, rows)
    }

    /** An admin PUT with a well-formed body: every field is checked first; only a body
        with no failing field is written, to the tenant's row or a new one. */
    function AdminPutSpec(t: TenantInfo, d: map<string, Json>, rows: seq<TenantRow>): (Response, seq<TenantRow>) {
      var outcome := CheckOutcome(AdminFieldChecks(d));
      if outcome.None? then (ServerError, rows)
      else if outcome.value != [] then (ValidationFailed(outcome.value), rows)
      else
        var row := ApplyAdminPut(GetOrCreate(t, rows), d);
        (Saved("Configuration updated", row), Upsert(rows, row))
    }

    method AdminConfig(m: Method, tenant: Option<TenantInfo>, body: Option<map<string, Json>>) returns (resp: Response)
      requires Valid()
      modifies this`rows
      ensures Valid()
      ensures (resp, rows) == AdminConfigSpec(m, tenant, body, old(rows))
    {
      if m != Get && m != Put {
        return MethodNotAllowed;
      }
      if tenant.None? {
        return ErrorResponse(400, "No tenant context");
      }
      if m == Get {
        return AdminConfigGet(tenant, rows);
      }
      if body.None? {
        return ErrorResponse(400, "Invalid JSON");
      }
      resp := AdminPut(tenant.value, body.value);
    }

    /** The PUT branch of the admin editor, once the body has parsed. */
    method AdminPut(t: TenantInfo, data: map<string, Json>) returns (resp: Response)
      requires Valid()
      modifies this`rows
      ensures Valid()
      ensures (resp, rows) == AdminPutSpec(t, data, old(rows))
    {
      var errors := CollectErrors(AdminFieldChecks(data));
      if errors.None? {
        return ServerError;
      }
      if errors.value != [] {
        return ValidationFailed(errors.value);
      }
      var base := GetOrCreate(t, rows);
      assert HosterShape(base.hosters) by {
        if FindRow(rows, t.tenantId).Some? {
          var k :| 0 <= k < |rows| && rows[k] == base;
        }
      }
      NoFailureReported(AdminFieldChecks(data));
      assert AdminFieldChecks(data)[7].0 != Fail;
      var row := ApplyAdminPut(base, data);
      Save(row);
      resp := Saved("Configuration updated", row);
    }

    /** The row a successful creation writes: every column the request may carry is
        (re)set; a reactivated row keeps only its section images and descriptions. */
    function CreatedRow(existing: Option<TenantRow>, id: string, d: map<string, Json>): (row: TenantRow)
      ensures row.tenantId == (if existing.Some? then existing.value.tenantId else id)
    {
      var base := if existing.Some? then existing.value else blank.(tenantId := id);
      base.(name := Sanitize(Lookup(d, "name", JNull), 200),
            primaryColor := Lookup(d, "primaryColor", JStr(DefaultPrimary)),
            secondaryColor := Lookup(d, "secondaryColor", JStr(DefaultSecondary)),
            logoUrl := Sanitize(Lookup(d, "logoUrl", JNull), 2000),
            bannerImage := Sanitize(Lookup(d, "bannerImage", JNull), 2000),
            features := Lookup(d, "features", EmptyObject),
            departments := Lookup(d, "departments", EmptyArray),
            hosters := Lookup(d, "hosters", EmptyArray),
            settings := Lookup(d, "settings", EmptyObject),
            isActive := if existing.Some? then true else blank.isActive)
    }

    function CreateSpec(body: Option<map<string, Json>>, binding: Json, rows: seq<TenantRow>): (Response, seq<TenantRow>) {
      if CreateRejection(rows, body).Some? then (CreateRejection(rows, body).value, rows)
      else
        var id := body.value["tenantId"].s;
        var row := CreatedRow(FindRow(rows, id), id, body.value);
        (Response(201, map["success" := JBool(true), "message" := JStr("Tenant '" + id + "' created"),
                           "data" := JObj(RowDict(row)), "binding" := binding]),
         Upsert(rows, row))
    }

    /** POST /tenants. `binding` is what binding the tenant to the current environment
        reported (its failure is reported, never fatal). */
    method TenantCreate(body: Option<map<string, Json>>, binding: Json) returns (resp: Response)
      requires Valid()
      modifies this`rows
      ensures Valid()
      ensures (resp, rows) == CreateSpec(body, binding, old(rows))
    {
      var rejection := CreateRejection(rows, body);
      if rejection.Some? {
        return rejection.value;
      }
      var data := body.value;
      var id := data["tenantId"].s;
      var existing := FindRow(rows, id);
      var row: TenantRow;
      if existing.Some? {
        row := existing.value;
        assert !row.isActive by { FindActiveIsActiveFind(rows, id); }
        row := row.(name := Sanitize(data["name"], 200));
        row := row.(primaryColor := Lookup(data, "primaryColor", JStr(DefaultPrimary)));
        row := row.(secondaryColor := Lookup(data, "secondaryColor", JStr(DefaultSecondary)));
        row := row.(logoUrl := Sanitize(Lookup(data, "logoUrl", JNull), 2000));
        row := row.(bannerImage := Sanitize(Lookup(data, "bannerImage", JNull), 2000));
        row := row.(features := Lookup(data, "features", EmptyObject));
        row := row.(departments := Lookup(data, "departments", EmptyArray));
        row := row.(hosters := Lookup(data, "hosters", EmptyArray));
        row := row.(settings := Lookup(data, "settings", EmptyObject));
        row := row.(isActive := true);
      } else {
        row := blank.(tenantId := id, name := Sanitize(data["name"], 200),
                      primaryColor := Lookup(data, "primaryColor", JStr(DefaultPrimary)),
                      secondaryColor := Lookup(data, "secondaryColor", JStr(DefaultSecondary)),
                      logoUrl := Sanitize(Lookup(data, "logoUrl", JNull), 2000),
                      bannerImage := Sanitize(Lookup(data, "bannerImage", JNull), 2000),
                      features := Lookup(data, "features", EmptyObject),
                      departments := Lookup(data, "departments", EmptyArray),
                      hosters := Lookup(data, "hosters", EmptyArray),
                      settings := Lookup(data, "settings", EmptyObject));
      }
      Save(row);
      resp := Response(201, map["success" := JBool(true), "message" := JStr("Tenant '" + id + "' created"),
                                "data" := JObj(RowDict(row)), "binding" := binding]);
    }

    /** The per-tenant endpoint: the answer and the table afterwards. */
    function DetailSpec(m: Method, id: string, current: Option<TenantInfo>, body: Option<map<string, Json>>,
                        dnsDeleted: bool, unbound: bool, rows: seq<TenantRow>): (Response, seq<TenantRow>)
    {
      if m != Get && m != Put && m != Delete then (MethodNotAllowed, rows)
      else if m == Delete && (id == "default" || id == "multi-tenant") then
        (ErrorResponse(400, "Tenant '" + id + "' is a protected system tenant and cannot be deleted"), rows)
      else if m == Delete && current.Some? && current.value.tenantId == id then
        (ErrorResponse(400, "無法刪除目前使用中的站台"), rows)
      else if FindRow(rows, id).None? then
        if m == Delete then (DeletedResponse(id, ["dns", "db(suppressed)"]), rows + [SuppressionRow(id)])
        else (ErrorResponse(404, "Tenant '" + id + "' not found"), rows)
      else
        FoundSpec(m, id, FindRow(rows, id).value, body, dnsDeleted, unbound, rows)
    }

    /** The per-tenant endpoint once the id's row is found. */
    function FoundSpec(m: Method, id: string, row: TenantRow, body: Option<map<string, Json>>,
                       dnsDeleted: bool, unbound: bool, rows: seq<TenantRow>): (Response, seq<TenantRow>)
    {
      if !row.isActive && m != Delete then (ErrorResponse(404, "Tenant '" + id + "' has been deleted"), rows)
      else if m == Get then (Response(200, map["data" := JObj(RowDict(row))]), rows)
      else if m == Put then PutSpec(row, body, rows)
      else (DeletedResponse(id, DeleteCleaned(row, dnsDeleted, unbound)), Upsert(rows, Deactivated(row)))
    }

    /** The inactive row that keeps a deleted static-file tenant from reappearing. */
    function SuppressionRow(id: string): (row: TenantRow)
      ensures row.tenantId == id && !row.isActive && !PyTruthy(row.hosters)
    {
      blank.(tenantId := id, name := Some(id), isActive := false, hosters := EmptyArray)
    }

    /** GET, PUT or DELETE /tenants/<id>. `current` is the tenant the request itself
        resolved to; `dnsDeleted` and `unbound` are the best-effort outcomes of removing the
        DNS record and the env-router binding. */
    method TenantDetail(m: Method, id: string, current: Option<TenantInfo>, body: Option<map<string, Json>>,
                        dnsDeleted: bool, unbound: bool) returns (resp: Response)
      requires Valid()
      modifies this`rows
      ensures Valid()
      ensures (resp, rows) == DetailSpec(m, id, current, body, dnsDeleted, unbound, old(rows))
    {
      if m != Get && m != Put && m != Delete {
        return MethodNotAllowed;
      }
      if m == Delete && (id == "default" || id == "multi-tenant") {
        return ErrorResponse(400, "Tenant '" + id + "' is a protected system tenant and cannot be deleted");
      }
      if m == Delete && current.Some? && current.value.tenantId == id {
        return ErrorResponse(400, "無法刪除目前使用中的站台");
      }
      var found := FindRow(rows, id);
      if found.None? {
        if m == Delete {
          resp := Suppress(id);
          return;
        }
        return ErrorResponse(404, "Tenant '" + id + "' not found");
      }
      resp := Found(m, id, found.value, body, dnsDeleted, unbound);
    }

    method Found(m: Method, id: string, tenant: TenantRow, body: Option<map<string, Json>>,
                 dnsDeleted: bool, unbound: bool) returns (resp: Response)
      requires Valid() && m in {Get, Put, Delete} && tenant in rows && tenant.tenantId == id
      modifies this`rows
      ensures Valid()
      ensures (resp, rows) == FoundSpec(m, id, tenant, body, dnsDeleted, unbound, old(rows))
    {
      if !tenant.isActive && m != Delete {
        return ErrorResponse(404, "Tenant '" + id + "' has been deleted");
      }
      if m == Get {
        return Response(200, map["data" := JObj(RowDict(tenant))]);
      }
      if m == Put {
        assert HosterShape(tenant.hosters) by {
          var k :| 0 <= k < |rows| && rows[k] == tenant;
        }
        resp := UpdateRow(tenant, body);
        return;
      }
      resp := DeleteRow(tenant, dnsDeleted, unbound);
    }

    /** Records a deleted static-file tenant as an inactive row. */
    method Suppress(id: string) returns (resp: Response)
      requires Valid() && !HasRow(rows, id)
      modifies this`rows
      ensures Valid()
      ensures resp == DeletedResponse(id, ["dns", "db(suppressed)"]) && rows == old(rows) + [SuppressionRow(id)]
    {
      var suppression := SuppressionRow(id);
      assert DistinctIds(rows + [suppression]) by {
        forall k | 0 <= k < |rows| ensures rows[k].tenantId != id {
          assert !HasRow(rows, id);
        }
      }
      rows := rows + [suppression];
      resp := DeletedResponse(id, ["dns", "db(suppressed)"]);
    }

    /** The PUT branch: nothing is saved when a field is rejected. */
    function PutSpec(row: TenantRow, body: Option<map<string, Json>>, rows: seq<TenantRow>): (Response, seq<TenantRow>) {
      match DetailPut(row, body)
      case Rejected(r) => (r, rows)
      case Updated(updated) => (Saved("Tenant updated", updated), Upsert(rows, updated))
    }

    method UpdateRow(row: TenantRow, body: Option<map<string, Json>>) returns (resp: Response)
      requires Valid() && HosterShape(row.hosters)
      modifies this`rows
      ensures Valid()
      ensures (resp, rows) == PutSpec(row, body, old(rows))
    {
      var outcome := DetailPut(row, body);
      if outcome.Rejected? {
        return outcome.response;
      }
      Save(outcome.row);
      resp := Saved("Tenant updated", outcome.row);
    }

    /** `row.save()`: the row replaces the one with its id, or is added at the end. */
    method Save(row: TenantRow)
      requires Valid() && HosterShape(row.hosters)
      modifies this`rows
      ensures Valid() && rows == Upsert(old(rows), row)
    {
      UpsertFacts(rows, row);
      UpsertKeepsHosterShape(rows, row);
      rows := Upsert(rows, row);
    }

    /** Soft deletion of an existing row: reported clean-up steps in the order they run. */
    method DeleteRow(row: TenantRow, dnsDeleted: bool, unbound: bool) returns (resp: Response)
      requires Valid()
      modifies this`rows
      ensures Valid()
      ensures resp == DeletedResponse(row.tenantId, DeleteCleaned(row, dnsDeleted, unbound))
      ensures rows == Upsert(old(rows), Deactivated(row))
    {
      ghost var dns: seq<string> := if dnsDeleted then ["dns"] else [];
      ghost var detached: seq<string> := if PyTruthy(row.hosters) then ["hosters(detached)"] else [];
      ghost var unbinding: seq<string> := if unbound then ["env_router(unbound)"] else [];
      var cleaned: seq<string> := [];
      if dnsDeleted {
        cleaned := cleaned + ["dns"];
      }
      assert cleaned == dns;
      if PyTruthy(row.hosters) {
        cleaned := cleaned + ["hosters(detached)"];
      }
      assert cleaned == dns + detached;
      Save(Deactivated(row));
      cleaned := cleaned + ["db(deactivated)"];
      if unbound {
        cleaned := cleaned + ["env_router(unbound)"];
      }
      assert cleaned == dns + detached + ["db(deactivated)"] + unbinding;
      resp := DeletedResponse(row.tenantId, cleaned);
    }

    /** The colours of an accepted admin PUT are what the editor reads back afterwards. */
    lemma {:induction false} AdminColourRoundTrip(t: TenantInfo, body: map<string, Json>, rows: seq<TenantRow>)
      requires DistinctIds(rows)
      requires AdminPutSpec(t, body, rows).0.status == 200
      ensures var after := AdminConfigGet(Some(t), AdminPutSpec(t, body, rows).1).body;
              "primaryColor" in after && "secondaryColor" in after
              && ("primaryColor" in body ==> after["primaryColor"] == body["primaryColor"])
              && ("secondaryColor" in body ==> after["secondaryColor"] == body["secondaryColor"])
    {
      var row := ApplyAdminPut(GetOrCreate(t, rows), body);
      assert CheckOutcome(AdminFieldChecks(body)) == Some([]);
      assert AdminPutSpec(t, body, rows).1 == Upsert(rows, row);
      UpsertFacts(rows, row);
      AdminGetShowsRowColours(t, Upsert(rows, row), row);
    }

    /** A PUT with a failing field writes nothing and answers 400 with the message of
        every failing field, in check order. */
    lemma AdminPutRejectsBeforeWriting(t: TenantInfo, d: map<string, Json>, rows: seq<TenantRow>)
      requires !AnyCrash(AdminFieldChecks(d)) && FailedMessages(AdminFieldChecks(d)) != []
      ensures AdminPutSpec(t, d, rows).1 == rows
      ensures AdminPutSpec(t, d, rows).0 == ValidationFailed(FailedMessages(AdminFieldChecks(d)))
      ensures forall m :: m in FailedMessages(AdminFieldChecks(d)) <==>
                exists i :: 0 <= i < 9 && AdminFieldChecks(d)[i].0 == Fail && AdminFieldChecks(d)[i].1 == m
    {
      FailedMessagesExact(AdminFieldChecks(d));
    }

    /** Reactivating a deleted tenant overwrites everything the request can carry: the
        result is the newly created row except for the section images and descriptions. */
    lemma ReactivationForgetsOldValues(old_row: TenantRow, id: string, d: map<string, Json>)
      requires old_row.tenantId == id
      requires Valid()
      ensures CreatedRow(Some(old_row), id, d)
              == CreatedRow(None, id, d).(sectionImages := old_row.sectionImages,
                                          sectionDescriptions := old_row.sectionDescriptions)
    {
    }

    /** After a successful creation the id is taken: validation reports it unavailable and
        a second identical request is refused. */
    lemma {:induction false} CreatedTenantIsTaken(body: map<string, Json>, binding: Json, rows: seq<TenantRow>)
      requires DistinctIds(rows) && blank.isActive
      requires CreateAccepted(rows, Some(body))
      ensures var after := CreateSpec(Some(body), binding, rows).1;
              ValidateTenantIdView(body["tenantId"].s, after).body["available"] == JBool(false)
              && CreateSpec(Some(body), binding, after).0 == ErrorResponse(400, "Tenant '" + body["tenantId"].s + "' already exists")
    {
      var id := body["tenantId"].s;
      var row := CreatedRow(FindRow(rows, id), id, body);
      UpsertFacts(rows, row);
      var after := Upsert(rows, row);
      FindActiveIsActiveFind(after, id);
    }

    /** A deleted tenant, with a row or from the static file only, stays out of the list. */
    lemma {:induction false} DeletedTenantStaysHidden(id: string, current: Option<TenantInfo>, dnsDeleted: bool, unbound: bool,
                                                     rows: seq<TenantRow>, yaml: Option<seq<(string, StaticTenant)>>)
      requires DistinctIds(rows)
      requires DetailSpec(Delete, id, current, None, dnsDeleted, unbound, rows).0.status == 200
      ensures var after := DetailSpec(Delete, id, current, None, dnsDeleted, unbound, rows).1;
              forall i :: 0 <= i < |ListedTenants(yaml, after)| ==> ListedTenants(yaml, after)[i].tenantId != id
    {
      var after := DetailSpec(Delete, id, current, None, dnsDeleted, unbound, rows).1;
      if FindRow(rows, id).None? {
        assert after == rows + [SuppressionRow(id)];
        SuppressionHides(rows, id);
      } else {
        var row := FindRow(rows, id).value;
        assert after == Upsert(rows, Deactivated(row)) && row.tenantId == id;
        DeactivationHides(rows, row);
      }
      TenantListContents(yaml, after, id);
      var listed := ListedTenants(yaml, after);
      assert !exists i :: 0 <= i < |listed| && listed[i].tenantId == id;
    }

    /** The suppression row keeps the id taken while leaving it inactive. */
    lemma SuppressionHides(rows: seq<TenantRow>, id: string)
      requires DistinctIds(rows) && FindRow(rows, id).None?
      ensures var after := rows + [SuppressionRow(id)];
              HasRow(after, id) && FindActiveRow(after, id).None?
    {
      var after := rows + [SuppressionRow(id)];
      assert after[|rows|] == SuppressionRow(id);
      assert DistinctIds(after) by {
        forall a, b | 0 <= a < b < |after| ensures after[a].tenantId != after[b].tenantId {
          if b == |rows| {
            assert after[a] == rows[a];
          }
        }
      }
      FindRowFirst(after, |rows|);
      FindActiveIsActiveFind(after, id);
    }

    /** A deactivated row keeps the id taken while leaving it inactive. */
    lemma DeactivationHides(rows: seq<TenantRow>, row: TenantRow)
      requires DistinctIds(rows)
      ensures var after := Upsert(rows, Deactivated(row));
              HasRow(after, row.tenantId) && FindActiveRow(after, row.tenantId).None?
    {
      var after := Upsert(rows, Deactivated(row));
      UpsertFacts(rows, Deactivated(row));
      FindActiveIsActiveFind(after, row.tenantId);
    }
  }
}
