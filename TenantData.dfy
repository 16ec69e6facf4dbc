/** The two sources of tenant configuration the backend layers: the static
    tenant file (one StaticTenant per tenant id) and the TenantConfig table (one
    TenantRow per tenant id, soft-deleted rows included), and the identity the
    middleware hands to the rest of a request (TenantInfo). */
module TenantData {
  import opened Common
  import opened JsonData

  /** One entry of the static tenant file. Keys that every reader fetches with the
      same default ({} or [] or "") hold that default when absent; name, brand_name
      and database.alias stay optional because their fallback differs per reader. */
  datatype StaticTenant = StaticTenant(
    name: Option<string>,
    brandName: Option<string>,
    databaseAlias: Option<string>,
    domains: seq<string>,
    theme: map<string, Json>,
    features: Json,
    settings: Json,
    departments: Json,
    hosters: Json,
    superusers: Json,
    districts: Json,
    regions: Json,
    socialLinks: Json,
    privacyUrl: Json)

  /** The entry read for an id the file does not define: every key absent. */
  const EmptyStatic: StaticTenant :=
    StaticTenant(None, None, None, [], map[], EmptyObject, EmptyObject, EmptyArray, EmptyArray,
                 EmptyArray, EmptyArray, EmptyObject, EmptyObject, JStr(""))

  /** The resolved tenant of one request: id, display name, database alias and the
      configuration tree the rest of the request reads. */
  datatype TenantInfo = TenantInfo(tenantId: string, name: Option<string>, database: string, config: StaticTenant)

  /** One row of the TenantConfig table. Colours and the JSON columns hold whatever the
      request body carried; name, logo and banner hold what string sanitising returned. */
  datatype TenantRow = TenantRow(
    tenantId: string,
    name: Option<string>,
    primaryColor: Json,
    secondaryColor: Json,
    logoUrl: Option<string>,
    bannerImage: Option<string>,
    sectionImages: Json,
    sectionDescriptions: Json,
    features: Json,
    departments: Json,
    settings: Json,
    hosters: Json,
    isActive: bool)

  /** tenant_id is the table's unique key. */
  predicate DistinctIds(rows: seq<TenantRow>) {
    forall i, j :: 0 <= i < j < |rows| ==> rows[i].tenantId != rows[j].tenantId
  }

  /** The hosters column is empty (null, [], "", …) or a list: the only shapes the
      admin views let through. */
  predicate HosterShape(j: Json) {
    !PyTruthy(j) || j.JArr?
  }

  predicate HostersWellFormed(rows: seq<TenantRow>) {
    forall k :: 0 <= k < |rows| ==> HosterShape(rows[k].hosters)
  }

  /** A row found in a table with well-formed hosters has well-formed hosters. */
  lemma FoundHosterShape(rows: seq<TenantRow>, id: string)
    requires HostersWellFormed(rows) && FindRow(rows, id).Some?
    ensures HosterShape(FindRow(rows, id).value.hosters)
  {
    var k :| 0 <= k < |rows| && rows[k] == FindRow(rows, id).value;
  }

  predicate HasRow(rows: seq<TenantRow>, id: string) {
    exists k :: 0 <= k < |rows| && rows[k].tenantId == id
  }

  /** The row carrying an id, active or not. */
  function FindRow(rows: seq<TenantRow>, id: string): (r: Option<TenantRow>)
    ensures r.Some? <==> HasRow(rows, id)
    ensures r.Some? ==> r.value in rows && r.value.tenantId == id
  {
    if rows == [] then None
    else if rows[0].tenantId == id then Some(rows[0])
    else
      var r := FindRow(rows[1..], id);
      assert HasRow(rows[1..], id) ==> HasRow(rows, id) by {
        if HasRow(rows[1..], id) {
          var k :| 0 <= k < |rows[1..]| && rows[1..][k].tenantId == id;
          assert rows[k + 1].tenantId == id;
        }
      }
      assert HasRow(rows, id) ==> HasRow(rows[1..], id) by {
        if HasRow(rows, id) {
          var k :| 0 <= k < |rows| && rows[k].tenantId == id;
          assert k != 0 && rows[1..][k - 1].tenantId == id;
        }
      }
      r
  }

  /** The active row carrying an id. */
  function FindActiveRow(rows: seq<TenantRow>, id: string): (r: Option<TenantRow>)
    ensures r.Some? ==> r.value in rows && r.value.tenantId == id && r.value.isActive
    ensures r.None? ==> forall k :: 0 <= k < |rows| && rows[k].tenantId == id ==> !rows[k].isActive
  {
    if rows == [] then None
    else if rows[0].tenantId == id && rows[0].isActive then Some(rows[0])
    else
      var r := FindActiveRow(rows[1..], id);
      assert r.None? ==> forall k :: 1 <= k < |rows| && rows[k].tenantId == id ==> !rows[k].isActive by {
        if r.None? {
          forall k | 1 <= k < |rows| && rows[k].tenantId == id ensures !rows[k].isActive {
            assert rows[1..][k - 1] == rows[k];
          }
        }
      }
      r
  }

  /** With unique ids, the active lookup is the plain lookup restricted to active rows. */
  lemma {:induction false} FindActiveIsActiveFind(rows: seq<TenantRow>, id: string)
    requires DistinctIds(rows)
    ensures FindActiveRow(rows, id) ==
            (if FindRow(rows, id).Some? && FindRow(rows, id).value.isActive then FindRow(rows, id) else None)
  {
    if rows != [] && rows[0].tenantId != id {
      assert DistinctIds(rows[1..]) by {
        forall i, j | 0 <= i < j < |rows[1..]| ensures rows[1..][i].tenantId != rows[1..][j].tenantId {
          assert rows[1..][i] == rows[i + 1] && rows[1..][j] == rows[j + 1];
        }
      }
      FindActiveIsActiveFind(rows[1..], id);
    }
  }
}
