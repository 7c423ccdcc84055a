/** The resources stage F3 produces, as values computed from the configuration. */
module BuildValues {
  import opened Text
  import opened Config
  import opened Link
  import Envoy
  import opened Policies
  import LinkL4
  import Names
  import Sorting

  function RouteLe(x: Route, y: Route): bool { Le(x.name, y.name) }
  function ListenerLe(x: Listener, y: Listener): bool { Le(x.name, y.name) }

  function SortedRoutes(cs: ConfigSet): seq<Route> { Sorting.Sort(cs.routes, RouteLe) }

  // Routes

  function ActionOf(action: Action): Envoy.RouteAction {
    match action
    case Forwarding(bs) =>
      if |bs| == 1 && bs[0].weight.None? then Envoy.ToCluster(Names.Cluster(bs[0].upstream))
      else Envoy.ToWeighted(seq(|bs|, i requires 0 <= i < |bs| =>
        (Names.Cluster(bs[i].upstream), if bs[i].weight.Some? then bs[i].weight.value else 1)))
    case Redirect(code) =>
      if !RedirectOk(action) then Envoy.NoAction
      else Envoy.Redirecting(if code == 0 then 301 else code)
    case DirectResponse(status) => Envoy.Responding(status)
  }

  predicate RedirectOk(action: Action) {
    action.Redirect? ==> action.code in {0, 301, 302, 303, 307, 308}
  }

  function Levels(cs: ConfigSet, l: Listener, r: Route, rule: Rule): seq<seq<Attachment>> {
    [cs.gatewayPolicies, l.policies, r.policies, rule.policies]
  }

  /** The policies in force on a rule: Gateway, Listener, Route, then rule. */
  function EffectiveOn(lk: Linked, cs: ConfigSet, l: Listener, r: Route, rule: Rule): Effective {
    Fold(lk, Flatten(Levels(cs, l, r, rule)))
  }

  /** What the nearest level that attaches a policy of the type says: the rule, else its route, else the listener, else
      the Gateway. */
  function Nearest<T>(lk: Linked, cs: ConfigSet, l: Listener, r: Route, rule: Rule, pick: PolicySpec -> Option<T>)
    : Option<T>
  {
    if LastPick(lk, rule.policies, pick).Some? then LastPick(lk, rule.policies, pick)
    else if LastPick(lk, r.policies, pick).Some? then LastPick(lk, r.policies, pick)
    else if LastPick(lk, l.policies, pick).Some? then LastPick(lk, l.policies, pick)
    else LastPick(lk, cs.gatewayPolicies, pick)
  }

  lemma NearestIsLast<T>(lk: Linked, cs: ConfigSet, l: Listener, r: Route, rule: Rule, pick: PolicySpec -> Option<T>,
      x: Option<T>)
    requires IsLast(lk, Flatten(Levels(cs, l, r, rule)), pick, x)
    ensures x == Nearest(lk, cs, l, r, rule, pick)
  {
    hide IsLast, LastPick;
    var a, b, c := cs.gatewayPolicies, l.policies, r.policies;
    FourLevels(Levels(cs, l, r, rule));
    LastPickIs(lk, a + b + c + rule.policies, pick, x);
    LastPickAppends(lk, a + b + c, rule.policies, pick);
    LastPickAppends(lk, a + b, c, pick);
    LastPickAppends(lk, a, b, pick);
  }

  /** For every type the policy in force on a rule is that of the nearest level, and a basicAuth policy on any level
      counts as unsupported. */
  lemma NearestGoverns(lk: Linked, cs: ConfigSet, l: Listener, r: Route, rule: Rule)
    ensures var eff := EffectiveOn(lk, cs, l, r, rule);
            && eff.extAuth == Nearest(lk, cs, l, r, rule, PickExtAuth)
            && eff.ipAccess == Nearest(lk, cs, l, r, rule, PickIpAccess)
            && eff.jwt == Nearest(lk, cs, l, r, rule, PickJwt)
            && eff.cors == Nearest(lk, cs, l, r, rule, PickCors)
            && eff.rateLimit == Nearest(lk, cs, l, r, rule, PickRateLimit)
            && eff.headerModifier == Nearest(lk, cs, l, r, rule, PickHeaderModifier)
            && (eff.unsupported == 0 <==> Nearest(lk, cs, l, r, rule, PickBasicAuth).None?)
  {
    hide Fold, IsLast, Flatten, Levels, Nearest;
    var atts := Flatten(Levels(cs, l, r, rule));
    var eff := EffectiveOn(lk, cs, l, r, rule);
    NormalisationIsNearest(lk, atts);
    NearestIsLast(lk, cs, l, r, rule, PickExtAuth, eff.extAuth);
    NearestIsLast(lk, cs, l, r, rule, PickIpAccess, eff.ipAccess);
    NearestIsLast(lk, cs, l, r, rule, PickJwt, eff.jwt);
    NearestIsLast(lk, cs, l, r, rule, PickCors, eff.cors);
    NearestIsLast(lk, cs, l, r, rule, PickRateLimit, eff.rateLimit);
    NearestIsLast(lk, cs, l, r, rule, PickHeaderModifier, eff.headerModifier);
    BasicAuthIsUnsupported(lk, cs, l, r, rule);
  }

  lemma BasicAuthIsUnsupported(lk: Linked, cs: ConfigSet, l: Listener, r: Route, rule: Rule)
    ensures EffectiveOn(lk, cs, l, r, rule).unsupported == 0 <==> Nearest(lk, cs, l, r, rule, PickBasicAuth).None?
  {
    hide Fold, IsLast, Flatten, Levels, Nearest, LastPick;
    var atts := Flatten(Levels(cs, l, r, rule));
    var last := LastPick(lk, atts, PickBasicAuth);
    LastPickIsLast(lk, atts, PickBasicAuth);
    NearestIsLast(lk, cs, l, r, rule, PickBasicAuth, last);
    UnsupportedIff(lk, atts);
  }

  lemma FourLevels(levels: seq<seq<Attachment>>)
    requires |levels| == 4
    ensures Flatten(levels) == levels[0] + levels[1] + levels[2] + levels[3]
  {
    var a, b, c := levels[..3], levels[..2], levels[..1];
    assert a[..2] == b && b[..1] == c && c[..0] == [];
    assert Flatten(c) == levels[0] && Flatten(b) == levels[0] + levels[1];
    assert Flatten(a) == levels[0] + levels[1] + levels[2];
  }

  function RawRoute(env: Env, lk: Linked, cs: ConfigSet, l: Listener, r: Route, rule: Rule): Envoy.Route {
    Envoy.Route(rule.match_, ActionOf(rule.action), TypedPerFilterConfig(env, EffectiveOn(lk, cs, l, r, rule)))
  }

  function Finalized(route: Envoy.Route, enabled: bool): Envoy.Route {
    route.(perFilter := FinalPerFilter(route.perFilter, enabled))
  }

  predicate DomainLe(a: string, b: string) {
    DomainRank(a) < DomainRank(b) || (DomainRank(a) == DomainRank(b) && Le(a, b))
  }

  function DomainRank(d: string): nat {
    if d == "*" then 2 else if "*." <= d then 1 else 0
  }

  function RouteDomains(r: Route): seq<string> {
    if r.hostnames == [] then ["*"] else Sorting.Sort(r.hostnames, DomainLe)
  }

  function RawVhost(env: Env, lk: Linked, cs: ConfigSet, l: Listener, r: Route): Envoy.VirtualHost {
    Envoy.VirtualHost(Names.VirtualHost(r.name), RouteDomains(r),
                      seq(|r.rules|, i requires 0 <= i < |r.rules| => RawRoute(env, lk, cs, l, r, r.rules[i])))
  }

  function FinalVhost(v: Envoy.VirtualHost, enabled: bool): Envoy.VirtualHost {
    v.(routes := seq(|v.routes|, i requires 0 <= i < |v.routes| => Finalized(v.routes[i], enabled)))
  }

  /** The HTTP routes attached to a listener, in list order. */
  function HttpRoutes(rs: seq<Route>, listener: string): (out: seq<Route>)
    ensures forall r :: r in out <==> r in rs && r.rules != [] && AttachesTo(r, listener)
  {
    if rs == [] then []
    else
      var r := rs[|rs| - 1];
      var rest := HttpRoutes(rs[..|rs| - 1], listener);
      assert rs == rs[..|rs| - 1] + [r];
      if r.rules != [] && AttachesTo(r, listener) then rest + [r] else rest
  }

  function RoutesOf(cs: ConfigSet, l: Listener): seq<Route> {
    HttpRoutes(SortedRoutes(cs), l.name)
  }

  // External authorization on a listener

  function Wanted(eff: Effective): seq<ExtAuthPolicy> {
    if Wants(eff.extAuth) then [eff.extAuth.value] else []
  }

  /** The providers wanted by the first n rules of a route, in order. */
  function WantedByRules(lk: Linked, cs: ConfigSet, l: Listener, r: Route, n: nat): seq<ExtAuthPolicy>
    requires n <= |r.rules|
  {
    if n == 0 then [] else WantedByRules(lk, cs, l, r, n - 1) + Wanted(EffectiveOn(lk, cs, l, r, r.rules[n - 1]))
  }

  function WantedByRoutes(lk: Linked, cs: ConfigSet, l: Listener, rs: seq<Route>): seq<ExtAuthPolicy> {
    if rs == [] then []
    else var r := rs[|rs| - 1]; WantedByRoutes(lk, cs, l, rs[..|rs| - 1]) + WantedByRules(lk, cs, l, r, |r.rules|)
  }

  function WantedOn(lk: Linked, cs: ConfigSet, l: Listener): seq<ExtAuthPolicy> {
    WantedByRoutes(lk, cs, l, RoutesOf(cs, l))
  }

  /** All providers wanted on a listener are real and have one key. */
  ghost predicate OneProvider(ps: seq<ExtAuthPolicy>) {
    forall i :: 0 <= i < |ps| ==> !ps[i].service.NoService? && KeyOf(ps[i]) == KeyOf(ps[0])
  }

  lemma {:induction false} WantedRuleListed(lk: Linked, cs: ConfigSet, l: Listener, r: Route, n: nat, i: nat)
    requires i < n <= |r.rules| && Wants(EffectiveOn(lk, cs, l, r, r.rules[i]).extAuth)
    ensures EffectiveOn(lk, cs, l, r, r.rules[i]).extAuth.value in WantedByRules(lk, cs, l, r, n)
  {
    hide EffectiveOn;
    if i < n - 1 {
      WantedRuleListed(lk, cs, l, r, n - 1, i);
    }
  }

  lemma {:induction false} WantedRouteListed(lk: Linked, cs: ConfigSet, l: Listener, rs: seq<Route>, r: Route,
      p: ExtAuthPolicy)
    requires r in rs && p in WantedByRules(lk, cs, l, r, |r.rules|)
    ensures p in WantedByRoutes(lk, cs, l, rs)
  {
    var last, rest := rs[|rs| - 1], rs[..|rs| - 1];
    assert rs == rest + [last];
    if r in rest {
      WantedRouteListed(lk, cs, l, rest, r, p);
    }
  }

  function HttpFilters(env: Env, ps: seq<ExtAuthPolicy>): seq<Envoy.HttpFilter> {
    [Envoy.PlainFilter(RBAC), Envoy.PlainFilter(CORS), Envoy.PlainFilter(JWT_AUTHN)]
    + (if ps == [] then [] else [AuthFilter(env, ps[0])])
    + [Envoy.PlainFilter(LOCAL_RATE_LIMIT), Envoy.PlainFilter(ROUTER)]
  }

  /** The external authorization cluster a listener with the wanted providers ps contributes. */
  function AuthOn(env: Env, ps: seq<ExtAuthPolicy>): map<string, Envoy.ClusterView> {
    if ps == [] || ps[0].service.NoService? then map[] else map[AuthCluster(env, ps[0]).name := AuthCluster(env, ps[0])]
  }

  /** The external authorization clusters of the listeners ls; of two with one name the later stays. */
  function AuthClusters(env: Env, lk: Linked, cs: ConfigSet, ls: seq<Listener>): map<string, Envoy.ClusterView> {
    if ls == [] then map[]
    else
      var l := ls[|ls| - 1];
      AuthClusters(env, lk, cs, ls[..|ls| - 1])
      + if l.protocol.IsHttp() then AuthOn(env, WantedOn(lk, cs, l)) else map[]
  }

  function RouteConfigOf(env: Env, lk: Linked, cs: ConfigSet, l: Listener): Envoy.RouteConfig {
    var rs := RoutesOf(cs, l);
    var enabled := WantedOn(lk, cs, l) != [];
    Envoy.RouteConfig(Names.RouteConfig(l.name),
      seq(|rs|, i requires 0 <= i < |rs| => FinalVhost(RawVhost(env, lk, cs, l, rs[i]), enabled)))
  }

  function HcmOf(env: Env, lk: Linked, cs: ConfigSet, l: Listener): Envoy.Hcm {
    Envoy.Hcm(Names.Listener(l.name), Envoy.Rds(Names.RouteConfig(l.name)), HttpFilters(env, WantedOn(lk, cs, l)))
  }

  lemma AuthFilterPresent(env: Env, ps: seq<ExtAuthPolicy>)
    ensures (exists f :: f in HttpFilters(env, ps) && f.ExtAuthz?) <==> ps != []
    ensures forall f :: f in HttpFilters(env, ps) && f.ExtAuthz? ==> ps != [] && f == AuthFilter(env, ps[0])
  {
    if ps != [] {
      assert HttpFilters(env, ps)[3] == AuthFilter(env, ps[0]);
    }
  }

  lemma RouteAt(env: Env, lk: Linked, cs: ConfigSet, l: Listener, k: nat, i: nat)
    requires k < |RoutesOf(cs, l)| && i < |RoutesOf(cs, l)[k].rules|
    ensures var r := RoutesOf(cs, l)[k];
            RouteConfigOf(env, lk, cs, l).vhosts[k].routes[i]
            == Finalized(RawRoute(env, lk, cs, l, r, r.rules[i]), WantedOn(lk, cs, l) != [])
  {
    hide RoutesOf, WantedOn, RawRoute, Finalized;
  }

  lemma WantedListed(lk: Linked, cs: ConfigSet, l: Listener, r: Route, i: nat)
    requires r in RoutesOf(cs, l) && i < |r.rules| && Wants(EffectiveOn(lk, cs, l, r, r.rules[i]).extAuth)
    ensures EffectiveOn(lk, cs, l, r, r.rules[i]).extAuth.value in WantedOn(lk, cs, l)
  {
    hide EffectiveOn, RoutesOf;
    WantedRuleListed(lk, cs, l, r, |r.rules|, i);
    WantedRouteListed(lk, cs, l, RoutesOf(cs, l), r, EffectiveOn(lk, cs, l, r, r.rules[i]).extAuth.value);
  }

  /** What the data plane enforces is what the rule asked for: on a listener whose wanted providers share one
      key, ext_authz runs on a rule exactly when the nearest extAuth attachment exists and is not disabled,
      and then the one filter is that of the first wanted provider, which has that policy's key. */
  lemma ExtAuthKeepsMeaning(env: Env, lk: Linked, cs: ConfigSet, l: Listener, k: nat, i: nat)
    requires OneProvider(WantedOn(lk, cs, l))
    requires k < |RoutesOf(cs, l)| && i < |RoutesOf(cs, l)[k].rules|
    ensures
      var r := RoutesOf(cs, l)[k];
      var nearest := Nearest(lk, cs, l, r, r.rules[i], PickExtAuth);
      var filters := HcmOf(env, lk, cs, l).httpFilters;
      var route := RouteConfigOf(env, lk, cs, l).vhosts[k].routes[i];
      && (RunsExtAuthz(filters, route.perFilter) <==> Wants(nearest))
      && (Wants(nearest) ==> WantedOn(lk, cs, l) != [] && KeyOf(WantedOn(lk, cs, l)[0]) == KeyOf(nearest.value)
                             && forall f :: f in filters && f.ExtAuthz? ==>
                                    f == AuthFilter(env, WantedOn(lk, cs, l)[0]))
  {
    hide WantedOn, RoutesOf, Fold, TypedPerFilterConfig, RunsExtAuthz, HttpFilters, Nearest, EffectiveOn;
    var r := RoutesOf(cs, l)[k];
    var ps := WantedOn(lk, cs, l);
    var eff := EffectiveOn(lk, cs, l, r, r.rules[i]);
    NearestGoverns(lk, cs, l, r, r.rules[i]);
    if Wants(eff.extAuth) {
      WantedListed(lk, cs, l, r, i);
    }
    AuthFilterPresent(env, ps);
    RouteAt(env, lk, cs, l, k, i);
    LoweringKeepsMeaning(env, HttpFilters(env, ps), eff, ps != []);
  }
}
