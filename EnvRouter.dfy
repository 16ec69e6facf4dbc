/** The edge worker in front of the tenant sites: it maps a tenant host
    ({tenant}.{base domain}) to the dev or the stable stack using a key-value
    table of bindings, and serves an authorised API that reads and writes that
    table. Fetches to the origins are parameters: the outcome of the two health
    probes and the proxied request itself are not modelled. */
module EnvRouter {
  import opened Common
  import opened JsonData

  /** The worker's settings; an unset or empty setting falls back to its default. */
  datatype Config = Config(
    bindingToken: Option<string>,
    baseDomain: Option<string>,
    defaultEnv: Option<string>,
    devOriginHost: Option<string>,
    stableOriginHost: Option<string>,
    autoDetectMissingBinding: Option<string>)

  /** `setting || fallback` on an optional string setting. */
  function OrDefault(setting: Option<string>, fallback: string): (r: string)
    ensures setting.Some? && setting.value != "" ==> r == setting.value
    ensures setting.None? || setting.value == "" ==> r == fallback
  {
    if setting.Some? && setting.value != "" then setting.value else fallback
  }

  const TruthyWords: seq<string> := ["1", "true", "yes", "y", "on"]

  /** A flag setting is on when, trimmed and lower-cased, it is one of TruthyWords. */
  function IsTruthy(v: Option<string>): (r: bool)
    ensures v.None? ==> !r
    ensures r <==> Lower(Strip(Js, v.GetOr(""))) in TruthyWords
  {
    var s := Lower(Strip(Js, v.GetOr("")));
    s == "1" || s == "true" || s == "yes" || s == "y" || s == "on"
  }

  // ---------------------------------------------------------------------------
  // The Authorization header
  // ---------------------------------------------------------------------------

  /** Length of the longest prefix of s without a line terminator. */
  function LineRun(s: string): (k: nat)
    ensures k <= |s| && (forall i :: 0 <= i < k ==> !IsJsLineTerminator(s[i]))
    ensures k == |s| || IsJsLineTerminator(s[k])
  {
    if s == [] || IsJsLineTerminator(s[0]) then 0 else 1 + LineRun(s[1..])
  }

  /** The largest index i >= 1 with s[i] not a line terminator, or 0 when there is none. */
  function LastNonTerminator(s: string): (i: nat)
    ensures i < |s| || i == 0
    ensures i > 0 ==> !IsJsLineTerminator(s[i]) && forall j :: i < j < |s| ==> IsJsLineTerminator(s[j])
    ensures i == 0 ==> forall j :: 1 <= j < |s| ==> IsJsLineTerminator(s[j])
  {
    if |s| <= 1 then 0
    else if !IsJsLineTerminator(s[|s| - 1]) then |s| - 1
    else LastNonTerminator(s[..|s| - 1])
  }

  /** The credential of an Authorization header matched against
      /^Bearer\s+(.+)\s*$/i, with the regular expression's backtracking worked out:
      after "Bearer" (any case) and at least one whitespace character, the credential
      runs from the first non-whitespace character up to the first line terminator, and
      only whitespace may follow it. (When nothing but whitespace follows "Bearer", the
      expression settles on a single whitespace character.) */
  function BearerToken(h: string): (r: Option<string>)
    ensures r.Some? ==> |h| >= 7 && Lower(h[..6]) == "bearer" && IsJsSpace(h[6]) && r.value != []
    ensures r.Some? ==> forall i :: 0 <= i < |r.value| ==> !IsJsLineTerminator(r.value[i])
  {
    if |h| < 7 || Lower(h[..6]) != "bearer" || !IsJsSpace(h[6]) then None
    else
      var rest := h[6..];
      var w := SpaceRun(rest);
      if w < |rest| then
        var e := w + LineRun(rest[w..]);
        if AllSpace(Js, rest[e..]) then Some(rest[w..e]) else None
      else
        var k := LastNonTerminator(rest);
        if k == 0 then None else Some([rest[k]])
  }

  /** A "Bearer" header (in any case) followed by one space and a credential without
      whitespace yields exactly that credential (section 2.1 of RFC 6750). */
  lemma BearerCredential(scheme: string, token: string)
    requires |scheme| == 6 && Lower(scheme) == "bearer"
    requires token != [] && forall i :: 0 <= i < |token| ==> !IsJsSpace(token[i])
    ensures BearerToken(scheme + " " + token) == Some(token)
  {
    var h := scheme + " " + token;
    assert h[..6] == scheme && h[6] == ' ';
    var rest := h[6..];
    assert rest == " " + token && rest[1..] == token;
    assert SpaceRun(token) == 0;
    assert SpaceRun(rest) == 1;
    LineRunNoTerminator(token);
    assert rest[1..][..LineRun(token)] == token;
    assert rest[1..1 + |token|] == token;
    assert rest[1 + |token|..] == [];
  }

  lemma {:induction false} LineRunNoTerminator(s: string)
    requires forall i :: 0 <= i < |s| ==> !IsJsSpace(s[i])
    ensures LineRun(s) == |s|
  {
    if s != [] {
      LineRunNoTerminator(s[1..]);
    }
  }

  /** Headers that do not start with "Bearer" and whitespace carry no credential. */
  lemma NoBearerNoToken(h: string)
    requires |h| < 7 || Lower(h[..6]) != "bearer" || !IsJsSpace(h[6])
    ensures BearerToken(h).None?
  {
  }

  // ---------------------------------------------------------------------------
  // Tenant hosts
  // ---------------------------------------------------------------------------

  /** The tenant a host belongs to: "default" for the base domain itself, the single
      label in front of the base domain for a tenant host, None for anything else. */
  function ExtractTenantId(hostname: string, baseDomain: string): (r: Option<string>)
    ensures Lower(hostname) == Lower(baseDomain) ==> r == Some("default")
    ensures r.Some? && Lower(hostname) != Lower(baseDomain) ==>
              r.value != "" && '.' !in r.value && Lower(hostname) == r.value + "." + Lower(baseDomain)
  {
    var host := Lower(hostname);
    var suffix := "." + Lower(baseDomain);
    if host == Lower(baseDomain) then Some("default")
    else if !EndsWith(host, suffix) then None
    else
      var left := host[..|host| - |suffix|];
      assert host == left + suffix;
      if left == "" || '.' in left then None else Some(left)
  }

  /** A host is refused exactly when it is neither the base domain nor a single label in
      front of it. */
  lemma ExtractTenantRefuses(hostname: string, baseDomain: string)
    ensures ExtractTenantId(hostname, baseDomain).None? <==>
            Lower(hostname) != Lower(baseDomain)
            && forall t :: t != "" && '.' !in t ==> Lower(hostname) != t + "." + Lower(baseDomain)
  {
    var host := Lower(hostname);
    var suffix := "." + Lower(baseDomain);
    if ExtractTenantId(hostname, baseDomain).None? && host != Lower(baseDomain) {
      forall t | t != "" && '.' !in t ensures host != t + suffix {
      }
    }
  }

  /** A lower-case label in front of the base domain is extracted unchanged. */
  lemma ExtractTenantRoundTrip(t: string, baseDomain: string)
    requires t != "" && '.' !in t && Lower(t) == t
    ensures ExtractTenantId(t + "." + baseDomain, baseDomain) == Some(t)
  {
    var host := t + "." + baseDomain;
    var suffix := "." + Lower(baseDomain);
    assert Lower(host) == t + suffix;
    assert |Lower(host)| != |Lower(baseDomain)|;
    assert Lower(host)[|Lower(host)| - |suffix|..] == suffix;
    assert Lower(host)[..|Lower(host)| - |suffix|] == t;
  }

  // ---------------------------------------------------------------------------
  // Environment choice
  // ---------------------------------------------------------------------------

  /** The probe verdict: an environment only when exactly one origin answered ok. */
  function DetectEnv(devOk: bool, stableOk: bool): (r: Option<string>)
    ensures r.Some? <==> devOk != stableOk
    ensures r == Some("dev") <==> devOk && !stableOk
    ensures r == Some("stable") <==> stableOk && !devOk
  {
    if devOk && !stableOk then Some("dev")
    else if !devOk && stableOk then Some("stable")
    else None
  }

  predicate IsEnvName(s: string) {
    s == "dev" || s == "stable"
  }

  /** Every stored binding names one of the two stacks. */
  predicate BindingsWellFormed(kv: map<string, string>) {
    forall t :: t in kv ==> IsEnvName(kv[t])
  }

  /** The JSON value's String(…) conversion, far enough to tell "dev" and "stable"
      apart from everything else. */
  function JsToString(j: Json): string
    decreases j
  {
    match j
    case JNull => "null"
    case JBool(b) => if b then "true" else "false"
    case JNum(n) => if n < 0 then "-" + NatToString(-n) else NatToString(n)
    case JStr(s) => s
    case JArr(items) => JoinWith(seq(|items|, i requires 0 <= i < |items| =>
                                   if items[i].JNull? then "" else JsToString(items[i])), ",")
    case JObj(_) => "[object Object]"
  }

  /** The env requested by a PUT body: the body's "env" member, stringified when truthy,
      otherwise "". */
  function RequestedEnv(body: Json): (env: string)
    ensures env != "" ==> body.JObj? && "env" in body.fields
    ensures body.JObj? && "env" in body.fields && body.fields["env"].JStr? ==> env == body.fields["env"].s
  {
    if body.JObj? && "env" in body.fields && JsTruthy(body.fields["env"]) then JsToString(body.fields["env"]) else ""
  }

  datatype Verb = GET | PUT | DELETE | OtherVerb

  datatype Reply = Reply(status: nat, body: map<string, Json>)

  function ErrorReply(status: nat, message: string): Reply {
    Reply(status, map["error" := JStr(message)])
  }

  /** The non-empty segments of a path. */
  function Segments(path: string): (r: seq<string>)
    ensures forall i :: 0 <= i < |r| ==> r[i] != ""
  {
    NonEmpty(Split(path, '/'))
  }

  function NonEmpty(parts: seq<string>): (r: seq<string>)
    ensures forall i :: 0 <= i < |r| ==> r[i] != ""
    ensures forall s :: s in r <==> s in parts && s != ""
  {
    if parts == [] then []
    else (if parts[0] != "" then [parts[0]] else []) + NonEmpty(parts[1..])
  }

  /** The tenant id of a binding-API path: its second segment, or "". */
  function BindingTenant(path: string): string {
    var segments := Segments(path);
    if |segments| > 1 then segments[1] else ""
  }

  predicate Authorized(cfg: Config, authorization: Option<string>) {
    cfg.bindingToken.Some? && cfg.bindingToken.value != ""
    && BearerToken(authorization.GetOr("")) == Some(cfg.bindingToken.value)
  }

  /** The binding API: the reply and the binding table afterwards. `body` is the parsed
      PUT body, None when it is not JSON. */
  function BindingSpec(cfg: Config, verb: Verb, path: string, authorization: Option<string>, body: Option<Json>,
                       kv: map<string, string>): (Reply, map<string, string>)
  {
    var tenantId := BindingTenant(path);
    if !Authorized(cfg, authorization) then (ErrorReply(401, "Unauthorized"), kv)
    else if tenantId == "" then (ErrorReply(400, "tenantId is required"), kv)
    else match verb
      case GET =>
        (Reply(200, map["tenantId" := JStr(tenantId),
                        "env" := if tenantId in kv then JStr(kv[tenantId]) else JNull]), kv)
      case PUT =>
        if body.None? then (ErrorReply(400, "Invalid JSON"), kv)
        else
          var target := RequestedEnv(body.value);
          if !IsEnvName(target) then (ErrorReply(400, "env must be 'dev' or 'stable'"), kv)
          else (Reply(200, map["ok" := JBool(true), "tenantId" := JStr(tenantId), "env" := JStr(target)]),
                kv[tenantId := target])
      case DELETE =>
        (Reply(200, map["ok" := JBool(true), "tenantId" := JStr(tenantId), "deleted" := JBool(true)]),
         kv - {tenantId})
      case OtherVerb => (ErrorReply(405, "Method not allowed"), kv)
  }

  /** Without the right token nothing is read or written, whatever the request. */
  lemma UnauthorizedChangesNothing(cfg: Config, verb: Verb, path: string, authorization: Option<string>,
                                   body: Option<Json>, kv: map<string, string>)
    requires !Authorized(cfg, authorization)
    ensures BindingSpec(cfg, verb, path, authorization, body, kv) == (ErrorReply(401, "Unauthorized"), kv)
  {
  }

  /** GET and refused requests leave the table alone; PUT binds the tenant to "dev" or
      "stable" and nothing else; DELETE removes exactly that tenant's binding. */
  lemma BindingEffects(cfg: Config, verb: Verb, path: string, authorization: Option<string>,
                       body: Option<Json>, kv: map<string, string>)
    ensures var (reply, after) := BindingSpec(cfg, verb, path, authorization, body, kv);
            var t := BindingTenant(path);
            (reply.status != 200 || verb == GET ==> after == kv)
            && (reply.status == 200 && verb == PUT ==> t in after && IsEnvName(after[t]) && after == kv[t := after[t]])
            && (reply.status == 200 && verb == DELETE ==> after == kv - {t})
            && (BindingsWellFormed(kv) ==> BindingsWellFormed(after))
  {
  }

  // ---------------------------------------------------------------------------
  // Routing
  // ---------------------------------------------------------------------------

  /** What the worker does with a request. */
  datatype Route =
    | BindingApi(reply: Reply)
    | PassThrough
    | Proxy(tenantId: string, env: string, originHost: string, originalHost: string)

  /** The environment a tenant's traffic goes to: its stored binding, else (when the
      flag is on) the probe verdict, else the default environment. */
  function TargetEnv(cfg: Config, stored: Option<string>, detected: Option<string>): (r: string)
    ensures stored.Some? && stored.value != "" ==> r == stored.value
    ensures (stored.None? || stored.value == "") && IsTruthy(cfg.autoDetectMissingBinding) && detected.Some?
            ==> r == detected.value
    ensures (stored.None? || stored.value == "") && (!IsTruthy(cfg.autoDetectMissingBinding) || detected.None?)
            ==> r == OrDefault(cfg.defaultEnv, "stable")
  {
    if stored.Some? && stored.value != "" then stored.value
    else if IsTruthy(cfg.autoDetectMissingBinding) && detected.Some? then detected.value
    else OrDefault(cfg.defaultEnv, "stable")
  }

  function DevHost(cfg: Config): string { OrDefault(cfg.devOriginHost, "dev.4impact.cc") }
  function StableHost(cfg: Config): string { OrDefault(cfg.stableOriginHost, "stable.4impact.cc") }

  /** The whole worker: the route taken and the binding table afterwards. `devOk` and
      `stableOk` are the answers of the two origins to the probe, used only when the
      probe runs. */
  function RouteSpec(cfg: Config, verb: Verb, path: string, hostname: string, authorization: Option<string>,
                     body: Option<Json>, devOk: bool, stableOk: bool, kv: map<string, string>): (Route, map<string, string>)
  {
    if StartsWith(path, "/__binding/") then
      var (reply, after) := BindingSpec(cfg, verb, path, authorization, body, kv);
      (BindingApi(reply), after)
    else
      var tenant := ExtractTenantId(hostname, OrDefault(cfg.baseDomain, "sechome.cc"));
      if tenant.None? then (PassThrough, kv)
      else
        var t := tenant.value;
        var stored := if t in kv then Some(kv[t]) else None;
        var probing := (stored.None? || stored.value == "") && IsTruthy(cfg.autoDetectMissingBinding);
        var detected := if probing then DetectEnv(devOk, stableOk) else None;
        var env := TargetEnv(cfg, stored, detected);
        var origin := if env == "dev" then DevHost(cfg) else StableHost(cfg);
        (Proxy(t, env, origin, hostname), if detected.Some? then kv[t := detected.value] else kv)
  }

  /** Routing proxies tenant hosts only, to the dev origin exactly when the target is
      "dev"; it writes a binding only when the probe settled a missing one. */
  lemma RouteFacts(cfg: Config, verb: Verb, path: string, hostname: string, authorization: Option<string>,
                   body: Option<Json>, devOk: bool, stableOk: bool, kv: map<string, string>)
    requires !StartsWith(path, "/__binding/")
    ensures var (route, after) := RouteSpec(cfg, verb, path, hostname, authorization, body, devOk, stableOk, kv);
            var tenant := ExtractTenantId(hostname, OrDefault(cfg.baseDomain, "sechome.cc"));
            (route.PassThrough? <==> tenant.None?)
            && (route.Proxy? ==> route.tenantId == tenant.value
                                 && (route.originHost == DevHost(cfg) <== route.env == "dev")
                                 && (route.env != "dev" ==> route.originHost == StableHost(cfg)))
            && (after != kv ==> route.Proxy? && (route.tenantId !in kv || kv[route.tenantId] == ""))
            && (after != kv ==> IsTruthy(cfg.autoDetectMissingBinding) && devOk != stableOk
                                && after == kv[route.tenantId := route.env])
            && (BindingsWellFormed(kv) ==> BindingsWellFormed(after))
  {
  }

  /** The worker's binding table, the one piece of state it keeps between requests. */
  class Worker {
    const config: Config
    var bindings: map<string, string>

    constructor (config: Config, bindings: map<string, string>)
      ensures this.config == config && this.bindings == bindings
    {
      this.config := config;
      this.bindings := bindings;
    }

    /** Handles one request, updating the binding table. */
    method Fetch(verb: Verb, path: string, hostname: string, authorization: Option<string>, body: Option<Json>,
                 devOk: bool, stableOk: bool) returns (route: Route)
      modifies this`bindings
      ensures (route, bindings) == RouteSpec(config, verb, path, hostname, authorization, body, devOk, stableOk, old(bindings))
    {
      if StartsWith(path, "/__binding/") {
        var reply := HandleBindingApi(verb, path, authorization, body);
        return BindingApi(reply);
      }
      var baseDomain := OrDefault(config.baseDomain, "sechome.cc");
      var tenantId := ExtractTenantId(hostname, baseDomain);
      if tenantId.None? {
        return PassThrough;
      }
      var t := tenantId.value;
      var target: Option<string> := if t in bindings then Some(bindings[t]) else None;
      var detected: Option<string> := None;
      if (target.None? || target.value == "") && IsTruthy(config.autoDetectMissingBinding) {
        detected := DetectEnv(devOk, stableOk);
        target := detected;
        if detected.Some? {
          bindings := bindings[t := detected.value];
        }
      }
      var env := if target.None? || target.value == "" then OrDefault(config.defaultEnv, "stable") else target.value;
      var originHost := if env == "dev" then DevHost(config) else StableHost(config);
      route := Proxy(t, env, originHost, hostname);
    }

    method HandleBindingApi(verb: Verb, path: string, authorization: Option<string>, body: Option<Json>) returns (reply: Reply)
      modifies this`bindings
      ensures (reply, bindings) == BindingSpec(config, verb, path, authorization, body, old(bindings))
    {
      var tenantId := BindingTenant(path);
      var token := BearerToken(authorization.GetOr(""));
      if config.bindingToken.None? || config.bindingToken.value == "" || token != Some(config.bindingToken.value) {
        return ErrorReply(401, "Unauthorized");
      }
      if tenantId == "" {
        return ErrorReply(400, "tenantId is required");
      }
      if verb == GET {
        return Reply(200, map["tenantId" := JStr(tenantId),
                              "env" := if tenantId in bindings then JStr(bindings[tenantId]) else JNull]);
      }
      if verb == PUT {
        if body.None? {
          return ErrorReply(400, "Invalid JSON");
        }
        var target := RequestedEnv(body.value);
        if target != "dev" && target != "stable" {
          return ErrorReply(400, "env must be 'dev' or 'stable'");
        }
        bindings := bindings[tenantId := target];
        return Reply(200, map["ok" := JBool(true), "tenantId" := JStr(tenantId), "env" := JStr(target)]);
      }
      if verb == DELETE {
        bindings := bindings - {tenantId};
        return Reply(200, map["ok" := JBool(true), "tenantId" := JStr(tenantId), "deleted" := JBool(true)]);
      }
      return ErrorReply(405, "Method not allowed");
    }
  }
}
