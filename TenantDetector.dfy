/** How the browser decides which tenant it is serving: an id injected by the
    server, else a developer override kept in local storage, else the first label
    of the host name. */
module TenantDetector {
  import opened Common

  /** Host labels that stand for a tenant with a different id. */
  const SubdomainMap: map<string, string> :=
    map["nantou" := "nantou-gov", "newtaipei" := "newtaipei-city", "taichung" := "taichung-city"]

  /** The tenant named by a host name: its lower-cased first label when the name has
      at least two labels, with the common labels and the loopback prefix meaning
      "default" and the mapped labels translated. */
  function FromHostname(hostname: string): (r: string)
    ensures '.' !in hostname ==> r == "default"
  {
    var parts := Split(hostname, '.');
    if |parts| >= 2 then
      var sub := Lower(parts[0]);
      if sub == "www" || sub == "api" || sub == "localhost" then "default"
      else if sub in SubdomainMap then SubdomainMap[sub]
      else if sub != "localhost" && sub != "127" then sub
      else "default"
    else
      assert hostname == Join(parts, '.');
      "default"
  }

  /** Host names with at least two labels: reserved first labels give "default", mapped
      labels their tenant, and any other label itself in lower case. */
  lemma FromHostnameCases(hostname: string)
    requires '.' in hostname
    ensures var sub := Lower(FirstPiece(hostname, '.'));
            var r := FromHostname(hostname);
            (sub in {"www", "api", "localhost", "127"} ==> r == "default")
            && (sub in SubdomainMap ==> r == SubdomainMap[sub])
            && (sub !in {"www", "api", "localhost", "127"} && sub !in SubdomainMap ==> r == sub)
  {
    var parts := Split(hostname, '.');
  }

  /** A tenant host {t}.{domain} with an ordinary lower-case label t is detected as t. */
  lemma TenantHostDetected(t: string, domain: string)
    requires t != "" && '.' !in t && Lower(t) == t
    requires t !in {"www", "api", "localhost", "127"} && t !in SubdomainMap
    ensures FromHostname(t + "." + domain) == t
  {
    var h := t + "." + domain;
    assert h[|t|] == '.' && h[..|t|] == t;
    assert '.' in h;
    FromHostnameCases(h);
    assert FirstPiece(h, '.') == t by {
      FirstPieceOfLabel(t, domain);
    }
  }

  lemma FirstPieceOfLabel(t: string, rest: string)
    requires '.' !in t
    ensures FirstPiece(t + "." + rest, '.') == t
  {
    var h := t + "." + rest;
    assert h[|t|] == '.';
    assert h[..|t|] == t;
  }

  /** An id counts only when it is a non-empty string. */
  function Present(v: Option<string>): bool {
    v.Some? && v.value != ""
  }

  /** The tenant in use: the server-injected id, else the stored override, else the
      host name's tenant. */
  function Detect(injected: Option<string>, stored: Option<string>, hostname: string): (r: string)
    ensures Present(injected) ==> r == injected.value
    ensures !Present(injected) && Present(stored) ==> r == stored.value
    ensures !Present(injected) && !Present(stored) ==> r == FromHostname(hostname)
  {
    if Present(injected) then injected.value
    else if Present(stored) then stored.value
    else FromHostname(hostname)
  }

  const OverrideKey := "tenant_id"

  /** The browser's local storage; `available` is false where the browser refuses
      access, in which case reads give nothing and writes are dropped. */
  class LocalStorage {
    var items: map<string, string>
    const available: bool

    constructor (items: map<string, string>, available: bool)
      ensures this.items == items && this.available == available
    {
      this.items := items;
      this.available := available;
    }

    function StoredTenant(): (r: Option<string>)
      reads this`items
      ensures r.Some? <==> available && OverrideKey in items
      ensures r.Some? ==> r.value == items[OverrideKey]
    {
      if available && OverrideKey in items then Some(items[OverrideKey]) else None
    }

    /** Stores a non-empty override and removes the override otherwise. */
    method SetTenantOverride(tenantId: Option<string>)
      modifies this`items
      ensures !available ==> items == old(items)
      ensures available && Present(tenantId) ==> items == old(items)[OverrideKey := tenantId.value]
      ensures available && !Present(tenantId) ==> items == old(items) - {OverrideKey}
      ensures available && Present(tenantId) ==> StoredTenant() == tenantId
      ensures available && !Present(tenantId) ==> StoredTenant().None?
      ensures forall hostname :: Detect(None, StoredTenant(), hostname)
                                 == if available && Present(tenantId) then tenantId.value
                                    else if available then FromHostname(hostname)
                                    else Detect(None, old(StoredTenant()), hostname)
    {
      if !available {
        return;
      }
      if Present(tenantId) {
        items := items[OverrideKey := tenantId.value];
      } else {
        items := items - {OverrideKey};
      }
    }
  }

  /** Over the browser's storage: a stored override decides detection when no id was
      injected, and without one detection falls back to the host name. */
  lemma StoredOverrideDecidesDetection(store: LocalStorage, hostname: string)
    ensures store.available && OverrideKey in store.items && store.items[OverrideKey] != "" ==>
              Detect(None, store.StoredTenant(), hostname) == store.items[OverrideKey]
    ensures !(store.available && OverrideKey in store.items && store.items[OverrideKey] != "") ==>
              Detect(None, store.StoredTenant(), hostname) == FromHostname(hostname)
  {
  }
}
