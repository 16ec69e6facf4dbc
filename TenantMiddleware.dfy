/** The backend's tenant middleware: lookup tables built once from the static
    tenant file, the per-request precedence chain that turns a host name, a
    tenant-id header and a proxy's original-host hint into a tenant, and the
    request-scoped tenant context that is set around each handler call. */
module TenantMiddleware {
  import opened Common
  import opened JsonData
  import opened TenantData

  /** The (domain, tenant id) pairs of one tenant, in the order of its `domains` list. */
  function TenantPairs(id: string, domains: seq<string>): (ps: seq<(string, string)>)
    ensures |ps| == |domains|
    ensures forall k :: 0 <= k < |ps| ==> ps[k] == (domains[k], id)
  {
    seq(|domains|, k requires 0 <= k < |domains| => (domains[k], id))
  }

  /** Every (domain, tenant id) pair of the static file, tenants in file order. */
  function DomainPairs(ids: seq<string>, tenants: map<string, StaticTenant>): seq<(string, string)>
    requires forall id :: id in ids ==> id in tenants
  {
    if ids == [] then []
    else DomainPairs(ids[..|ids| - 1], tenants) + TenantPairs(ids[|ids| - 1], tenants[ids[|ids| - 1]].domains)
  }

  /** The domain table after writing each pair in turn: the lower-cased domain maps to its
      tenant, and a later pair overwrites an earlier one with the same key. */
  function DomainTable(pairs: seq<(string, string)>): map<string, string> {
    if pairs == [] then map[]
    else DomainTable(pairs[..|pairs| - 1])[Lower(pairs[|pairs| - 1].0) := pairs[|pairs| - 1].1]
  }

  /** The subdomain key a domain contributes, if any: its lower-cased first label when the
      domain has at least two labels and that label is neither "www" nor "api". */
  function SubdomainKey(domain: string): Option<string> {
    if '.' !in domain then None
    else
      var key := Lower(FirstPiece(domain, '.'));
      if key == "www" || key == "api" then None else Some(key)
  }

  function SubdomainTable(pairs: seq<(string, string)>): map<string, string> {
    if pairs == [] then map[]
    else
      var t := SubdomainTable(pairs[..|pairs| - 1]);
      var key := SubdomainKey(pairs[|pairs| - 1].0);
      if key.Some? then t[key.value := pairs[|pairs| - 1].1] else t
  }

  lemma {:induction false} DomainTableKeysLowerCase(pairs: seq<(string, string)>)
    ensures forall k :: k in DomainTable(pairs) ==> Lower(k) == k
  {
    if pairs != [] {
      DomainTableKeysLowerCase(pairs[..|pairs| - 1]);
      LowerIdempotent(pairs[|pairs| - 1].0);
    }
  }

  /** Every configured domain is a key, and it maps to the tenant of the last pair that
      wrote the same lower-cased key. */
  lemma {:induction false} DomainTableLastWriterWins(pairs: seq<(string, string)>, i: nat)
    requires i < |pairs|
    requires forall j :: i < j < |pairs| ==> Lower(pairs[j].0) != Lower(pairs[i].0)
    ensures Lower(pairs[i].0) in DomainTable(pairs)
    ensures DomainTable(pairs)[Lower(pairs[i].0)] == pairs[i].1
  {
    if i < |pairs| - 1 {
      DomainTableLastWriterWins(pairs[..|pairs| - 1], i);
    }
  }

  lemma {:induction false} DomainTableValuesFromPairs(pairs: seq<(string, string)>)
    ensures forall k :: k in DomainTable(pairs) ==> exists i :: 0 <= i < |pairs| && pairs[i].1 == DomainTable(pairs)[k]
  {
    if pairs != [] {
      var init := pairs[..|pairs| - 1];
      DomainTableValuesFromPairs(init);
      forall k | k in DomainTable(pairs)
        ensures exists i :: 0 <= i < |pairs| && pairs[i].1 == DomainTable(pairs)[k]
      {
        if k != Lower(pairs[|pairs| - 1].0) {
          assert k in DomainTable(init) && DomainTable(pairs)[k] == DomainTable(init)[k];
          var i :| 0 <= i < |init| && init[i].1 == DomainTable(init)[k];
          assert pairs[i] == init[i];
        }
      }
    }
  }

  /** Subdomain keys are lower-case single labels other than "www" and "api". */
  lemma {:induction false} SubdomainTableKeys(pairs: seq<(string, string)>)
    ensures "www" !in SubdomainTable(pairs) && "api" !in SubdomainTable(pairs)
    ensures forall k :: k in SubdomainTable(pairs) ==> Lower(k) == k && '.' !in k
  {
    if pairs != [] {
      SubdomainTableKeys(pairs[..|pairs| - 1]);
      var d := pairs[|pairs| - 1].0;
      if '.' in d {
        LowerIdempotent(FirstPiece(d, '.'));
      }
    }
  }

  /** A domain with a non-reserved first label is reachable through the subdomain table,
      mapping to the last tenant that claimed that label. */
  lemma {:induction false} SubdomainTableLastWriterWins(pairs: seq<(string, string)>, i: nat)
    requires i < |pairs| && SubdomainKey(pairs[i].0).Some?
    requires forall j :: i < j < |pairs| ==> SubdomainKey(pairs[j].0) != SubdomainKey(pairs[i].0)
    ensures SubdomainKey(pairs[i].0).value in SubdomainTable(pairs)
    ensures SubdomainTable(pairs)[SubdomainKey(pairs[i].0).value] == pairs[i].1
  {
    if i < |pairs| - 1 {
      SubdomainTableLastWriterWins(pairs[..|pairs| - 1], i);
    }
  }

  lemma {:induction false} SubdomainTableValuesFromPairs(pairs: seq<(string, string)>)
    ensures forall k :: k in SubdomainTable(pairs) ==> exists i :: 0 <= i < |pairs| && pairs[i].1 == SubdomainTable(pairs)[k]
  {
    if pairs != [] {
      var init := pairs[..|pairs| - 1];
      SubdomainTableValuesFromPairs(init);
      forall k | k in SubdomainTable(pairs)
        ensures exists i :: 0 <= i < |pairs| && pairs[i].1 == SubdomainTable(pairs)[k]
      {
        var key := SubdomainKey(pairs[|pairs| - 1].0);
        if key.None? || k != key.value {
          assert k in SubdomainTable(init) && SubdomainTable(pairs)[k] == SubdomainTable(init)[k];
          var i :| 0 <= i < |init| && init[i].1 == SubdomainTable(init)[k];
          assert pairs[i] == init[i];
        }
      }
    }
  }

  lemma {:induction false} DomainPairsOwners(ids: seq<string>, tenants: map<string, StaticTenant>)
    requires forall id :: id in ids ==> id in tenants
    ensures forall i :: 0 <= i < |DomainPairs(ids, tenants)| ==> DomainPairs(ids, tenants)[i].1 in ids
  {
    if ids != [] {
      var init := ids[..|ids| - 1];
      DomainPairsOwners(init, tenants);
      var ps := DomainPairs(ids, tenants);
      var front := DomainPairs(init, tenants);
      forall i | 0 <= i < |ps| ensures ps[i].1 in ids {
        if i < |front| {
          assert ps[i] == front[i];
          assert front[i].1 in init;
        } else {
          assert ps[i].1 == ids[|ids| - 1];
        }
      }
    }
  }

  /** Writing one more pair updates each table by at most that pair's key. */
  lemma TablesSnoc(pairs: seq<(string, string)>, p: (string, string))
    ensures DomainTable(pairs + [p]) == DomainTable(pairs)[Lower(p.0) := p.1]
    ensures SubdomainTable(pairs + [p]) ==
            if SubdomainKey(p.0).Some? then SubdomainTable(pairs)[SubdomainKey(p.0).value := p.1] else SubdomainTable(pairs)
  {
    assert (pairs + [p])[..|pairs + [p]| - 1] == pairs;
  }

  lemma PairsSnoc(done: seq<(string, string)>, id: string, domains: seq<string>, j: nat)
    requires j < |domains|
    ensures done + TenantPairs(id, domains[..j + 1]) == done + TenantPairs(id, domains[..j]) + [(domains[j], id)]
  {
    assert TenantPairs(id, domains[..j + 1]) == TenantPairs(id, domains[..j]) + [(domains[j], id)];
  }

  /** The host name Django reports, without its port, lower-cased. */
  function HostOf(raw: string): (h: string)
    ensures ':' !in h && |h| <= |raw|
    ensures h == Lower(FirstPiece(raw, ':'))
  {
    Lower(FirstPiece(raw, ':'))
  }

  /** The host the chain works with: the proxy's original host replaces the request host
      only when the request arrived at an origin host (*.4impact.cc) on behalf of a
      tenant site (*.sechome.cc). */
  function EffectiveHost(rawHost: string, originalHost: Option<string>): (h: string)
    ensures ':' !in h
    ensures h != HostOf(rawHost) ==>
              originalHost.Some? && h == HostOf(originalHost.value)
              && EndsWith(HostOf(rawHost), ".4impact.cc") && EndsWith(h, ".sechome.cc")
  {
    var host := HostOf(rawHost);
    if originalHost.Some? && originalHost.value != "" then
      var original := HostOf(originalHost.value);
      if EndsWith(host, ".4impact.cc") && EndsWith(original, ".sechome.cc") then original else host
    else host
  }

  /** The tenant-id header after normalising and the anti-spoofing rule: on a *.sechome.cc
      host, a header naming anything but the host's first label is ignored. */
  function TrustedHeader(host: string, header: Option<string>): (r: Option<string>)
    ensures r.Some? ==> r.value != "" && header.Some? && r.value == Lower(Strip(Py, header.value))
  {
    if header.None? || header.value == "" then None
    else
      var id := Lower(Strip(Py, header.value));
      if id == "" || (EndsWith(host, ".sechome.cc") && id != FirstPiece(host, '.')) then None
      else Some(id)
  }

  /** The middleware: loader contents, the two lookup tables and the tenant context. */
  class Middleware {
    /** Tenant ids in the order the static file lists them. */
    const tenantIds: seq<string>
    const tenants: map<string, StaticTenant>
    const defaultTenantId: string
    var domainToTenant: map<string, string>
    var subdomainToTenant: map<string, string>
    /** The request-scoped current tenant that views read. */
    var current: Option<TenantInfo>

    ghost predicate Valid()
      reads this`domainToTenant, this`subdomainToTenant
    {
      (forall id :: id in tenantIds <==> id in tenants)
      && domainToTenant == DomainTable(DomainPairs(tenantIds, tenants))
      && subdomainToTenant == SubdomainTable(DomainPairs(tenantIds, tenants))
    }

    constructor (ids: seq<string>, tenants: map<string, StaticTenant>, defaultTenantId: string)
      requires forall id :: id in ids <==> id in tenants
      ensures Valid()
      ensures this.tenantIds == ids && this.tenants == tenants && this.defaultTenantId == defaultTenantId
      ensures current == None
    {
      this.tenantIds := ids;
      this.tenants := tenants;
      this.defaultTenantId := defaultTenantId;
      current := None;
      new;
      BuildLookupTables();
    }

    /** Fills both tables from scratch, one tenant and one domain at a time. */
    method BuildLookupTables()
      requires forall id :: id in tenantIds ==> id in tenants
      modifies this`domainToTenant, this`subdomainToTenant
      ensures domainToTenant == DomainTable(DomainPairs(tenantIds, tenants))
      ensures subdomainToTenant == SubdomainTable(DomainPairs(tenantIds, tenants))
    {
      domainToTenant := map[];
      subdomainToTenant := map[];
      var i := 0;
      while i < |tenantIds|
        invariant 0 <= i <= |tenantIds|
        invariant domainToTenant == DomainTable(DomainPairs(tenantIds[..i], tenants))
        invariant subdomainToTenant == SubdomainTable(DomainPairs(tenantIds[..i], tenants))
      {
        var id := tenantIds[i];
        AddTenantDomains(id, tenants[id].domains, DomainPairs(tenantIds[..i], tenants));
        assert tenantIds[..i + 1][..i] == tenantIds[..i];
        i := i + 1;
      }
      assert tenantIds[..i] == tenantIds;
    }

    /** One tenant's domains, written into both tables in turn. */
    method AddTenantDomains(id: string, domains: seq<string>, ghost done: seq<(string, string)>)
      requires domainToTenant == DomainTable(done) && subdomainToTenant == SubdomainTable(done)
      modifies this`domainToTenant, this`subdomainToTenant
      ensures domainToTenant == DomainTable(done + TenantPairs(id, domains))
      ensures subdomainToTenant == SubdomainTable(done + TenantPairs(id, domains))
    {
      var j := 0;
      assert done + TenantPairs(id, domains[..0]) == done;
      while j < |domains|
        invariant 0 <= j <= |domains|
        invariant domainToTenant == DomainTable(done + TenantPairs(id, domains[..j]))
        invariant subdomainToTenant == SubdomainTable(done + TenantPairs(id, domains[..j]))
      {
        var domain := domains[j];
        ghost var before := done + TenantPairs(id, domains[..j]);
        PairsSnoc(done, id, domains, j);
        TablesSnoc(before, (domain, id));
        domainToTenant := domainToTenant[Lower(domain) := id];
        if '.' in domain {
          var subdomain := Lower(FirstPiece(domain, '.'));
          if subdomain != "www" && subdomain != "api" {
            subdomainToTenant := subdomainToTenant[subdomain := id];
          }
        }
        j := j + 1;
      }
      assert domains[..j] == domains;
    }

    /** A tenant from the static file: name and database fall back to the id. */
    function StaticInfo(id: string): (r: TenantInfo)
      ensures r.tenantId == id
      ensures id in tenants ==> r.config == tenants[id]
      ensures id !in tenants ==> r.config == EmptyStatic
      ensures r.name == Some(if r.config.name.Some? then r.config.name.value else id)
      ensures r.database == (if r.config.databaseAlias.Some? then r.config.databaseAlias.value else id)
    {
      var config := if id in tenants then tenants[id] else EmptyStatic;
      TenantInfo(id, Some(config.name.GetOr(id)), config.databaseAlias.GetOr(id), config)
    }

    /** The configuration DB-only tenants start from: "multi-tenant" when the file defines
        it, else the default tenant's (empty when neither exists). */
    function TemplateConfig(): (c: StaticTenant)
      ensures "multi-tenant" in tenants ==> c == tenants["multi-tenant"]
      ensures "multi-tenant" !in tenants && defaultTenantId in tenants ==> c == tenants[defaultTenantId]
      ensures "multi-tenant" !in tenants && defaultTenantId !in tenants ==> c == EmptyStatic
    {
      var templateId := if "multi-tenant" in tenants then "multi-tenant" else defaultTenantId;
      if templateId in tenants then tenants[templateId] else EmptyStatic
    }

    /** The database every DB-only tenant shares: the default tenant's alias, else its id. */
    function DefaultDatabase(): (d: string)
      ensures defaultTenantId in tenants && tenants[defaultTenantId].databaseAlias.Some?
              ==> d == tenants[defaultTenantId].databaseAlias.value
      ensures !(defaultTenantId in tenants && tenants[defaultTenantId].databaseAlias.Some?) ==> d == defaultTenantId
    {
      var defaultConfig := if defaultTenantId in tenants then tenants[defaultTenantId] else EmptyStatic;
      defaultConfig.databaseAlias.GetOr(defaultTenantId)
    }

    /** A tenant that only the database knows about: it exists iff an active row has the id. */
    function DbTenant(id: string, rows: seq<TenantRow>): (r: Option<TenantInfo>)
      ensures r.Some? <==> FindActiveRow(rows, id).Some?
      ensures r.Some? ==> r.value.tenantId == id && r.value.database == DefaultDatabase()
                          && r.value.name == FindActiveRow(rows, id).value.name
      ensures r.Some? ==> r.value.config.name == FindActiveRow(rows, id).value.name
      ensures r.Some? ==> (r.value.config.hosters ==
                             if PyTruthy(FindActiveRow(rows, id).value.hosters) then FindActiveRow(rows, id).value.hosters
                             else TemplateConfig().hosters)
      ensures r.Some? ==> r.value.config.(name := TemplateConfig().name, hosters := TemplateConfig().hosters) == TemplateConfig()
    {
      var row := FindActiveRow(rows, id);
      if row.None? then None
      else
        var template := TemplateConfig();
        Some(TenantInfo(id, row.value.name, DefaultDatabase(),
                        template.(name := row.value.name, hosters := PyOr(row.value.hosters, template.hosters))))
    }

    /** The precedence chain: trusted header (static file, then active row), full domain,
        first label, active row named by the first label, the default tenant, else none. */
    function Resolve(rawHost: string, header: Option<string>, originalHost: Option<string>, rows: seq<TenantRow>): (r: Option<TenantInfo>)
      reads this`domainToTenant, this`subdomainToTenant
      ensures defaultTenantId != "" && defaultTenantId in tenants ==> r.Some?
    {
      ResolveHost(EffectiveHost(rawHost, originalHost), header, rows)
    }

    /** The chain once the effective host is known. */
    function ResolveHost(host: string, header: Option<string>, rows: seq<TenantRow>): (r: Option<TenantInfo>)
      reads this`domainToTenant, this`subdomainToTenant
      ensures defaultTenantId != "" && defaultTenantId in tenants ==> r.Some?
      ensures r.None? ==> TrustedHeader(host, header).None? || TrustedHeader(host, header).value !in tenants
    {
      var hinted := TrustedHeader(host, header);
      var subdomain := FirstPiece(host, '.');
      if hinted.Some? && hinted.value in tenants then Some(StaticInfo(hinted.value))
      else if hinted.Some? && DbTenant(hinted.value, rows).Some? then DbTenant(hinted.value, rows)
      else if host in domainToTenant then Some(StaticInfo(domainToTenant[host]))
      else if subdomain in subdomainToTenant then Some(StaticInfo(subdomainToTenant[subdomain]))
      else if DbTenant(subdomain, rows).Some? then DbTenant(subdomain, rows)
      else if defaultTenantId != "" && defaultTenantId in tenants then Some(StaticInfo(defaultTenantId))
      else None
    }

    /** One request: the resolved tenant is the context while the handler runs, and the
        context is None again afterwards whether the handler returned or raised. */
    method Handle<R>(rawHost: string, header: Option<string>, originalHost: Option<string>,
                     rows: seq<TenantRow>, handler: Option<TenantInfo> -> R) returns (outcome: R)
      modifies this`current
      ensures outcome == handler(Resolve(rawHost, header, originalHost, rows))
      ensures current == None
    {
      current := Resolve(rawHost, header, originalHost, rows);
      outcome := handler(current);
      current := None;
    }

    /** The proxy rewrite is the only way the original host matters: with it the request
        resolves exactly as a direct request to the original host, without it exactly as if
        the hint were absent. */
    lemma ProxyRewrite(rawHost: string, header: Option<string>, original: string, rows: seq<TenantRow>)
      ensures EndsWith(HostOf(rawHost), ".4impact.cc") && EndsWith(HostOf(original), ".sechome.cc")
              ==> Resolve(rawHost, header, Some(original), rows) == Resolve(original, header, None, rows)
      ensures !(EndsWith(HostOf(rawHost), ".4impact.cc") && EndsWith(HostOf(original), ".sechome.cc"))
              ==> Resolve(rawHost, header, Some(original), rows) == Resolve(rawHost, header, None, rows)
    {
      if EndsWith(HostOf(rawHost), ".4impact.cc") && EndsWith(HostOf(original), ".sechome.cc") {
        assert EffectiveHost(rawHost, Some(original)) == EffectiveHost(original, None);
      } else {
        assert EffectiveHost(rawHost, Some(original)) == EffectiveHost(rawHost, None);
      }
    }

    /** On a tenant site, a header that names another tenant changes nothing. */
    lemma HeaderSpoofIgnored(rawHost: string, header: string, originalHost: Option<string>, rows: seq<TenantRow>)
      requires EndsWith(EffectiveHost(rawHost, originalHost), ".sechome.cc")
      requires Lower(Strip(Py, header)) != FirstPiece(EffectiveHost(rawHost, originalHost), '.')
      ensures Resolve(rawHost, Some(header), originalHost, rows) == Resolve(rawHost, None, originalHost, rows)
    {
    }

    /** A trusted header naming a tenant of the static file wins over every other rule. */
    lemma TrustedHeaderWins(rawHost: string, header: string, originalHost: Option<string>, rows: seq<TenantRow>)
      requires TrustedHeader(EffectiveHost(rawHost, originalHost), Some(header)) == Some(Lower(Strip(Py, header)))
      requires Lower(Strip(Py, header)) in tenants
      ensures Resolve(rawHost, Some(header), originalHost, rows) == Some(StaticInfo(Lower(Strip(Py, header))))
    {
    }

    /** Without a usable header, a host equal to a configured domain gets that domain's
        tenant, ahead of the subdomain and database rules. */
    lemma FullDomainBeforeSubdomain(rawHost: string, header: Option<string>, originalHost: Option<string>, rows: seq<TenantRow>)
      requires Valid()
      requires TrustedHeader(EffectiveHost(rawHost, originalHost), header).None?
      requires EffectiveHost(rawHost, originalHost) in domainToTenant
      ensures Resolve(rawHost, header, originalHost, rows) == Some(StaticInfo(domainToTenant[EffectiveHost(rawHost, originalHost)]))
      ensures Resolve(rawHost, header, originalHost, rows).value.tenantId in tenants
    {
      DomainPairsOwners(tenantIds, tenants);
      DomainTableValuesFromPairs(DomainPairs(tenantIds, tenants));
    }

    /** With a usable default tenant configured, every request resolves to some tenant. */
    lemma DefaultMakesResolutionTotal(rawHost: string, header: Option<string>, originalHost: Option<string>, rows: seq<TenantRow>)
      requires defaultTenantId != "" && defaultTenantId in tenants
      ensures Resolve(rawHost, header, originalHost, rows).Some?
    {
    }

    /** Resolution yields None only when every rule of the chain failed. */
    lemma NoTenantMeansEveryRuleFailed(rawHost: string, header: Option<string>, originalHost: Option<string>, rows: seq<TenantRow>)
      requires Resolve(rawHost, header, originalHost, rows).None?
      ensures EffectiveHost(rawHost, originalHost) !in domainToTenant
      ensures FirstPiece(EffectiveHost(rawHost, originalHost), '.') !in subdomainToTenant
      ensures FindActiveRow(rows, FirstPiece(EffectiveHost(rawHost, originalHost), '.')).None?
      ensures defaultTenantId == "" || defaultTenantId !in tenants
    {
    }

    /** Every resolved tenant is either defined by the static file or has an active row. */
    lemma {:induction false} ResolvedTenantIsKnown(rawHost: string, header: Option<string>, originalHost: Option<string>, rows: seq<TenantRow>)
      requires Valid()
      requires Resolve(rawHost, header, originalHost, rows).Some?
      ensures var id := Resolve(rawHost, header, originalHost, rows).value.tenantId;
              id in tenants || FindActiveRow(rows, id).Some?
    {
      var pairs := DomainPairs(tenantIds, tenants);
      DomainPairsOwners(tenantIds, tenants);
      DomainTableValuesFromPairs(pairs);
      SubdomainTableValuesFromPairs(pairs);
    }
  }
}
