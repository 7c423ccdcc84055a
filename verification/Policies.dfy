/** Policy normalisation over the four attachment levels, and the lowering of external
    authorization to one listener-wide filter plus per-route overrides. */
module Policies {
  import opened Text
  import opened Config
  import opened Link
  import opened Envoy
  import Names
  import Ip = IpAccess

  // Normalisation

  datatype Effective = Effective(
    headerModifier: Option<string>, cors: Option<string>, rateLimit: Option<string>, jwt: Option<string>,
    extAuth: Option<ExtAuthPolicy>, ipAccess: Option<Ip.IpPolicy>, unsupported: nat)

  const NO_POLICIES := Effective(None, None, None, None, None, None, 0)

  function ResolveAttachment(lk: Linked, a: Attachment): Option<PolicySpec> {
    match a
    case Inline(spec) => Some(spec)
    case Ref(name) => if name in lk.policies then Some(lk.policies[name]) else None
  }

  /** A later policy replaces an earlier one of its own type. */
  function Override(eff: Effective, spec: Option<PolicySpec>): Effective {
    match spec
    case None => eff
    case Some(HeaderModifier(x)) => eff.(headerModifier := Some(x))
    case Some(Cors(x)) => eff.(cors := Some(x))
    case Some(RateLimit(x)) => eff.(rateLimit := Some(x))
    case Some(Jwt(x)) => eff.(jwt := Some(x))
    case Some(ExtAuth(x)) => eff.(extAuth := Some(x))
    case Some(IpAccess(x)) => eff.(ipAccess := Some(x))
    case Some(BasicAuth(_)) => eff.(unsupported := eff.unsupported + 1)
  }

  function Fold(lk: Linked, atts: seq<Attachment>): Effective {
    if atts == [] then NO_POLICIES
    else Override(Fold(lk, atts[..|atts| - 1]), ResolveAttachment(lk, atts[|atts| - 1]))
  }

  method NormalizePolicies(lk: Linked, levels: seq<seq<Attachment>>) returns (eff: Effective)
    ensures eff == Fold(lk, Flatten(levels))
  {
    eff := NO_POLICIES;
    for i := 0 to |levels|
      invariant eff == Fold(lk, Flatten(levels[..i]))
    {
      assert levels[..i + 1][..i] == levels[..i];
      ghost var before := Flatten(levels[..i]);
      assert before + levels[i][..0] == before;
      for j := 0 to |levels[i]|
        invariant eff == Fold(lk, before + levels[i][..j])
      {
        assert (before + levels[i][..j + 1])[..|before| + j] == before + levels[i][..j];
        eff := Override(eff, ResolveAttachment(lk, levels[i][j]));
      }
      assert levels[i][..|levels[i]|] == levels[i];
    }
    assert levels[..|levels|] == levels;
  }

  function Flatten(levels: seq<seq<Attachment>>): seq<Attachment> {
    if levels == [] then [] else Flatten(levels[..|levels| - 1]) + levels[|levels| - 1]
  }

  /** r is the last thing that pick finds among the resolved attachments. */
  ghost predicate IsLast<T>(lk: Linked, atts: seq<Attachment>, pick: PolicySpec -> Option<T>, r: Option<T>) {
    match r
    case None => forall i :: 0 <= i < |atts| ==> Picks(lk, atts[i], pick).None?
    case Some(x) => exists i :: 0 <= i < |atts| && Picks(lk, atts[i], pick) == Some(x)
                                && forall j :: i < j < |atts| ==> Picks(lk, atts[j], pick).None?
  }

  function Picks<T>(lk: Linked, a: Attachment, pick: PolicySpec -> Option<T>): Option<T> {
    var s := ResolveAttachment(lk, a);
    if s.None? then None else pick(s.value)
  }

  function PickExtAuth(s: PolicySpec): Option<ExtAuthPolicy> { if s.ExtAuth? then Some(s.auth) else None }
  function PickIpAccess(s: PolicySpec): Option<Ip.IpPolicy> { if s.IpAccess? then Some(s.ip) else None }
  function PickJwt(s: PolicySpec): Option<string> { if s.Jwt? then Some(s.requirement) else None }
  function PickCors(s: PolicySpec): Option<string> { if s.Cors? then Some(s.cors) else None }
  function PickRateLimit(s: PolicySpec): Option<string> { if s.RateLimit? then Some(s.limit) else None }
  function PickHeaderModifier(s: PolicySpec): Option<string> { if s.HeaderModifier? then Some(s.ops) else None }

  function PickBasicAuth(s: PolicySpec): Option<string> { if s.BasicAuth? then Some(s.users) else None }

  /** The last thing that pick finds, looking from the end. */
  function LastPick<T>(lk: Linked, atts: seq<Attachment>, pick: PolicySpec -> Option<T>): Option<T> {
    if atts == [] then None
    else
      var x := Picks(lk, atts[|atts| - 1], pick);
      if x.Some? then x else LastPick(lk, atts[..|atts| - 1], pick)
  }

  lemma {:induction false} LastPickIsLast<T>(lk: Linked, atts: seq<Attachment>, pick: PolicySpec -> Option<T>)
    ensures IsLast(lk, atts, pick, LastPick(lk, atts, pick))
  {
    if atts != [] {
      var rest, a := atts[..|atts| - 1], atts[|atts| - 1];
      LastPickIsLast(lk, rest, pick);
      LastStep(lk, rest, a, pick, LastPick(lk, rest, pick));
      assert rest + [a] == atts;
    }
  }

  lemma LastIsUnique<T>(lk: Linked, atts: seq<Attachment>, pick: PolicySpec -> Option<T>, x: Option<T>, y: Option<T>)
    requires IsLast(lk, atts, pick, x) && IsLast(lk, atts, pick, y)
    ensures x == y
  {
    if x.Some? {
      var i :| && 0 <= i < |atts| && Picks(lk, atts[i], pick) == x
               && forall j :: i < j < |atts| ==> Picks(lk, atts[j], pick).None?;
      if y.Some? {
        var k :| && 0 <= k < |atts| && Picks(lk, atts[k], pick) == y
                 && forall j :: k < j < |atts| ==> Picks(lk, atts[j], pick).None?;
      }
    }
  }

  lemma LastPickIs<T>(lk: Linked, atts: seq<Attachment>, pick: PolicySpec -> Option<T>, x: Option<T>)
    requires IsLast(lk, atts, pick, x)
    ensures x == LastPick(lk, atts, pick)
  {
    hide IsLast;
    LastPickIsLast(lk, atts, pick);
    LastIsUnique(lk, atts, pick, x, LastPick(lk, atts, pick));
  }

  lemma {:induction false} LastPickAppends<T>(lk: Linked, a: seq<Attachment>, b: seq<Attachment>,
      pick: PolicySpec -> Option<T>)
    ensures LastPick(lk, a + b, pick)
            == if LastPick(lk, b, pick).Some? then LastPick(lk, b, pick) else LastPick(lk, a, pick)
  {
    if b == [] {
      assert a + b == a;
    } else {
      var all := a + b;
      assert all[|all| - 1] == b[|b| - 1] && all[..|all| - 1] == a + b[..|b| - 1];
      LastPickAppends(lk, a, b[..|b| - 1], pick);
    }
  }

  /** Nothing is unsupported exactly when no basicAuth policy is attached. */
  lemma {:induction false} UnsupportedIff(lk: Linked, atts: seq<Attachment>)
    ensures Fold(lk, atts).unsupported == 0 <==> LastPick(lk, atts, PickBasicAuth).None?
  {
    if atts != [] {
      UnsupportedIff(lk, atts[..|atts| - 1]);
    }
  }

  lemma LastStep<T>(lk: Linked, atts: seq<Attachment>, a: Attachment, pick: PolicySpec -> Option<T>, r: Option<T>)
    requires IsLast(lk, atts, pick, r)
    ensures IsLast(lk, atts + [a], pick, if Picks(lk, a, pick).Some? then Picks(lk, a, pick) else r)
  {
    var all := atts + [a];
    assert all[|atts|] == a && forall i :: 0 <= i < |atts| ==> all[i] == atts[i];
    if Picks(lk, a, pick).None? && r.Some? {
      var i :| && 0 <= i < |atts| && Picks(lk, atts[i], pick) == r
               && forall j :: i < j < |atts| ==> Picks(lk, atts[j], pick).None?;
      assert Picks(lk, all[i], pick) == r;
    } else if Picks(lk, a, pick).Some? {
      assert Picks(lk, all[|atts|], pick).Some?;
    }
  }

  /** The field of Effective that holds what pick finds. */
  ghost predicate Holds<T>(pick: PolicySpec -> Option<T>, field: Effective -> Option<T>) {
    && field(NO_POLICIES) == None
    && forall eff, spec ::
         field(Override(eff, spec))
         == if spec.Some? && pick(spec.value).Some? then pick(spec.value) else field(eff)
  }

  lemma {:induction false} FieldIsLast<T>(lk: Linked, atts: seq<Attachment>, pick: PolicySpec -> Option<T>,
      field: Effective -> Option<T>)
    requires Holds(pick, field)
    ensures IsLast(lk, atts, pick, field(Fold(lk, atts)))
  {
    if atts != [] {
      var rest, a := atts[..|atts| - 1], atts[|atts| - 1];
      FieldIsLast(lk, rest, pick, field);
      assert atts == rest + [a];
      LastStep(lk, rest, a, pick, field(Fold(lk, rest)));
    }
  }

  /** Nearest attachment wins, whole policy by whole policy, for every type. */
  lemma NormalisationIsNearest(lk: Linked, atts: seq<Attachment>)
    ensures IsLast(lk, atts, PickExtAuth, Fold(lk, atts).extAuth)
    ensures IsLast(lk, atts, PickIpAccess, Fold(lk, atts).ipAccess)
    ensures IsLast(lk, atts, PickJwt, Fold(lk, atts).jwt)
    ensures IsLast(lk, atts, PickCors, Fold(lk, atts).cors)
    ensures IsLast(lk, atts, PickRateLimit, Fold(lk, atts).rateLimit)
    ensures IsLast(lk, atts, PickHeaderModifier, Fold(lk, atts).headerModifier)
  {
    hide Fold, IsLast;
    FieldIsLast(lk, atts, PickExtAuth, (e: Effective) => e.extAuth);
    FieldIsLast(lk, atts, PickIpAccess, (e: Effective) => e.ipAccess);
    FieldIsLast(lk, atts, PickJwt, (e: Effective) => e.jwt);
    FieldIsLast(lk, atts, PickCors, (e: Effective) => e.cors);
    FieldIsLast(lk, atts, PickRateLimit, (e: Effective) => e.rateLimit);
    FieldIsLast(lk, atts, PickHeaderModifier, (e: Effective) => e.headerModifier);
  }

  // Per-route configuration

  const RBAC := "envoy.filters.http.rbac"
  const CORS := "envoy.filters.http.cors"
  const JWT_AUTHN := "envoy.filters.http.jwt_authn"
  const EXT_AUTHZ := "envoy.filters.http.ext_authz"
  const LOCAL_RATE_LIMIT := "envoy.filters.http.local_ratelimit"
  const ROUTER := "envoy.filters.http.router"

  function Entry(name: string, config: Option<string>): map<string, PerRoute> {
    if config.Some? then map[name := OtherPerRoute(config.value)] else map[]
  }

  function RbacEntry(env: Env, access: Option<Ip.IpPolicy>): map<string, PerRoute> {
    if access.None? then map[] else map[RBAC := Rbac(Ip.PrincipalOf(access.value, env.cidr))]
  }

  function AuthEntry(auth: Option<ExtAuthPolicy>): map<string, PerRoute> {
    if auth.None? then map[] else map[EXT_AUTHZ := if auth.value.disabled then AuthDisabled else AuthEnabled]
  }

  function TypedPerFilterConfig(env: Env, eff: Effective): map<string, PerRoute> {
    Entry(CORS, eff.cors) + RbacEntry(env, eff.ipAccess) + Entry(LOCAL_RATE_LIMIT, eff.rateLimit)
    + Entry(JWT_AUTHN, eff.jwt) + AuthEntry(eff.extAuth)
  }

  method Put(perFilter: map<string, PerRoute>, name: string, config: Option<string>)
    returns (now: map<string, PerRoute>)
    ensures now == perFilter + Entry(name, config)
  {
    now := if config.Some? then perFilter[name := OtherPerRoute(config.value)] else perFilter;
  }

  method PutRbac(perFilter: map<string, PerRoute>, env: Env, access: Option<Ip.IpPolicy>)
    returns (now: map<string, PerRoute>)
    ensures now == perFilter + RbacEntry(env, access)
  {
    hide Ip.PrincipalOf, Ip.Faithful;
    now := perFilter;
    if access.Some? {
      var principal := Ip.BuildIpAccess(access.value, env.cidr);
      now := perFilter[RBAC := Rbac(principal)];
    }
  }

  method PutAuth(perFilter: map<string, PerRoute>, auth: Option<ExtAuthPolicy>) returns (now: map<string, PerRoute>)
    ensures now == perFilter + AuthEntry(auth)
  {
    now := perFilter;
    if auth.Some? {
      now := perFilter[EXT_AUTHZ := if auth.value.disabled then AuthDisabled else AuthEnabled];
    }
  }

  /** typedPerFilterConfig: one entry per policy in force. */
  method BuildPerFilter(env: Env, eff: Effective) returns (perFilter: map<string, PerRoute>)
    ensures perFilter == TypedPerFilterConfig(env, eff)
  {
    hide Entry, RbacEntry, AuthEntry;
    perFilter := Put(map[], CORS, eff.cors);
    assert perFilter == Entry(CORS, eff.cors);
    perFilter := PutRbac(perFilter, env, eff.ipAccess);
    perFilter := Put(perFilter, LOCAL_RATE_LIMIT, eff.rateLimit);
    perFilter := Put(perFilter, JWT_AUTHN, eff.jwt);
    perFilter := PutAuth(perFilter, eff.extAuth);
  }

  lemma FilterNamesDiffer()
    ensures RBAC != CORS && RBAC != JWT_AUTHN && RBAC != EXT_AUTHZ && RBAC != LOCAL_RATE_LIMIT
    ensures EXT_AUTHZ != CORS && EXT_AUTHZ != JWT_AUTHN && EXT_AUTHZ != LOCAL_RATE_LIMIT
  {
    assert RBAC[19] == 'r' && CORS[19] == 'c' && JWT_AUTHN[19] == 'j' && EXT_AUTHZ[19] == 'e';
    assert LOCAL_RATE_LIMIT[19] == 'l';
  }

  /** The data plane admits a remote address unless the rbac filter runs and the route has a principal that does not
      match it; the filter's own configuration is empty and admits everyone. */
  predicate AdmitsAddress(filters: seq<HttpFilter>, perFilter: map<string, PerRoute>, a: Ip.Addr) {
    PlainFilter(RBAC) in filters && RBAC in perFilter && perFilter[RBAC].Rbac? ==>
      Ip.Matches(perFilter[RBAC].principal, a)
  }

  /** A rule admits exactly the addresses its nearest ipAccess policy admits, and all of them without one. */
  lemma AccessKeepsMeaning(env: Env, filters: seq<HttpFilter>, eff: Effective, enabled: bool, a: Ip.Addr)
    requires Ip.Faithful(env.cidr) && PlainFilter(RBAC) in filters
    ensures AdmitsAddress(filters, FinalPerFilter(TypedPerFilterConfig(env, eff), enabled), a)
            <==> (eff.ipAccess.Some? ==> Ip.Admits(eff.ipAccess.value, a))
  {
    hide Ip.PrincipalOf, Ip.Faithful, Ip.Matches, Ip.Admits;
    FilterNamesDiffer();
    var t := TypedPerFilterConfig(env, eff);
    assert RBAC in t <==> eff.ipAccess.Some?;
    if eff.ipAccess.Some? {
      Ip.PrincipalAdmits(eff.ipAccess.value, env.cidr, a);
    }
  }

  // External authorization

  function Bool(b: bool): string { if b then "true" else "false" }

  /** The key by which effective providers on one listener are compared. */
  function ProviderKey(service: ExtAuthService, failOpen: bool): string {
    (match service
     case NoService => ""
     case Grpc(host, port) => "grpc|" + JoinHostPort(ToLower(host), port)
     case Http(scheme, host, port, pathPrefix, caFile, insecure) =>
       "http|" + ToLower(scheme) + "|" + JoinHostPort(ToLower(host), port) + "|" + pathPrefix + "|ca=" + caFile
       + "|insecure=" + Bool(insecure))
    + "|failOpen=" + Bool(failOpen)
  }

  function KeyOf(p: ExtAuthPolicy): string {
    ProviderKey(p.service, p.failOpen)
  }

  /** Foreign functions: the content digest, the IP literal test, certificate names, the text of a CIDR prefix and the
      certificate file checks; and whether Kubernetes endpoints are available. */
  datatype Env = Env(
    digest: string -> string, isIp: string -> bool, extract: string -> Option<seq<string>>, cidr: Ip.Prefix -> string,
    keyPair: (string, string) -> bool, caFile: string -> bool, endpointSource: bool)

  function TargetOf(service: ExtAuthService): AuthTarget {
    match service
    case Http(scheme, host, port, pathPrefix, _, _) => HttpTarget(scheme, host, port, pathPrefix)
    case _ => GrpcTarget
  }

  function AuthFilter(env: Env, p: ExtAuthPolicy): HttpFilter {
    ExtAuthz(Names.ExtAuthCluster(env.digest(KeyOf(p))), TargetOf(p.service), p.failOpen)
  }

  function AuthCluster(env: Env, p: ExtAuthPolicy): ClusterView
    requires !p.service.NoService?
  {
    var name := Names.ExtAuthCluster(env.digest(KeyOf(p)));
    ClusterView(name, if env.isIp(p.service.host) then Static else StrictDns,
                Some(LoadAssignment(name, [Endpoint(p.service.host, p.service.port, None)])), false)
  }

  function FinalPerFilter(perFilter: map<string, PerRoute>, enabled: bool): map<string, PerRoute> {
    if !enabled then perFilter - {EXT_AUTHZ}
    else if EXT_AUTHZ in perFilter then perFilter
    else perFilter[EXT_AUTHZ := AuthDisabled]
  }

  /** The data plane runs the ext_authz filter unless it is absent or the route disables it. */
  predicate RunsExtAuthz(filters: seq<HttpFilter>, perFilter: map<string, PerRoute>) {
    && (exists f :: f in filters && f.ExtAuthz?)
    && !(EXT_AUTHZ in perFilter && perFilter[EXT_AUTHZ] == AuthDisabled)
  }

  predicate Wants(p: Option<ExtAuthPolicy>) {
    p.Some? && !p.value.disabled
  }

  /** The lowering of one rule on a listener whose filter is present exactly when some rule wants it. */
  lemma LoweringKeepsMeaning(env: Env, filters: seq<HttpFilter>, eff: Effective, enabled: bool)
    requires enabled <==> exists f :: f in filters && f.ExtAuthz?
    requires Wants(eff.extAuth) ==> enabled
    ensures RunsExtAuthz(filters, FinalPerFilter(TypedPerFilterConfig(env, eff), enabled)) <==> Wants(eff.extAuth)
  {
    var t := TypedPerFilterConfig(env, eff);
    assert EXT_AUTHZ in t <==> eff.extAuth.Some? by { FilterNamesDiffer(); }
  }
}
