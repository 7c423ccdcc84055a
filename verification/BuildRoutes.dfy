/** Stage F3, routes: rules in order become routes, and the providers they want are collected
    into one listener-wide assembly while the loops run. */
module BuildRoutes {
  import opened Text
  import opened Config
  import opened Link
  import opened Envoy
  import opened Policies
  import opened BuildValues
  import Names
  import Sorting

  function BuildError(source: string, path: string): CompileError {
    CompileError(BuildStage, source, path)
  }

  class ExtAuthAssembly {
    var key: string
    var config: Option<HttpFilter>

    constructor ()
      ensures config == None
    {
      key, config := "", None;
    }

    predicate Enabled()
      reads this
    {
      config.Some?
    }
  }

  class BuildContext {
    var extAuth: map<string, ClusterView>

    constructor ()
      ensures extAuth == map[]
    {
      extAuth := map[];
    }

    ghost predicate Valid()
      reads this
    {
      forall n :: n in extAuth ==> AuthClusterShape(n, extAuth[n])
    }
  }

  ghost predicate AuthClusterShape(n: string, c: ClusterView) {
    && c.name == n && (exists d :: n == Names.ExtAuthCluster(d)) && !c.edsConfig
    && (c.discovery.Static? || c.discovery.StrictDns?)
    && c.assignment.Some? && c.assignment.value.clusterName == n
  }

  /** The assembly after the providers ps were registered without a conflict, and the clusters, base before. */
  ghost predicate Assembled(asm: ExtAuthAssembly, ctx: BuildContext, env: Env, ps: seq<ExtAuthPolicy>, base: map<string,
      ClusterView>)
    reads asm, ctx
  {
    && ctx.extAuth == base + AuthOn(env, ps)
    && if ps == [] then asm.config == None else asm.key == KeyOf(ps[0]) && asm.config == Some(AuthFilter(env, ps[0]))
  }

  lemma PrefixProvider(a: seq<ExtAuthPolicy>, b: seq<ExtAuthPolicy>)
    requires OneProvider(a + b)
    ensures OneProvider(a)
  {
    forall i | 0 <= i < |a| ensures !a[i].service.NoService? && KeyOf(a[i]) == KeyOf(a[0]) {
      assert (a + b)[i] == a[i] && (a + b)[0] == a[0];
    }
  }

  lemma OneMoreProvider(ps: seq<ExtAuthPolicy>, p: ExtAuthPolicy)
    requires OneProvider(ps)
    ensures OneProvider(ps + [p]) <==> !p.service.NoService? && (ps == [] || KeyOf(p) == KeyOf(ps[0]))
  {
    var qs := ps + [p];
    assert qs[|ps|] == p && forall i :: 0 <= i < |ps| ==> qs[i] == ps[i];
    if OneProvider(qs) {
      assert KeyOf(qs[|ps|]) == KeyOf(qs[0]);
    }
  }

  method RegisterExtAuth(env: Env, asm: ExtAuthAssembly, ctx: BuildContext, p: Option<ExtAuthPolicy>,
      ghost ps: seq<ExtAuthPolicy>, ghost base: map<string, ClusterView>)
    returns (ok: bool)
    requires ctx.Valid() && (OneProvider(ps) ==> Assembled(asm, ctx, env, ps, base))
    modifies asm, ctx
    ensures ctx.Valid() && old(ctx.extAuth).Keys <= ctx.extAuth.Keys
    ensures OneProvider(ps) ==> (ok <==> OneProvider(ps + if Wants(p) then [p.value] else []))
    ensures OneProvider(ps + if Wants(p) then [p.value] else []) ==>
      Assembled(asm, ctx, env, ps + (if Wants(p) then [p.value] else []), base)
  {
    if p.None? || p.value.disabled {
      assert ps + [] == ps;
      return true;
    }
    var policy := p.value;
    if OneProvider(ps + [policy]) { PrefixProvider(ps, [policy]); }
    if OneProvider(ps) { OneMoreProvider(ps, policy); }
    if policy.service.NoService? {
      return false;
    }
    var key := KeyOf(policy);
    if asm.Enabled() {
      return asm.key == key;
    }
    var cluster := AuthCluster(env, policy);
    assert AuthClusterShape(cluster.name, cluster);
    ctx.extAuth := ctx.extAuth[cluster.name := cluster];
    asm.key, asm.config := key, Some(AuthFilter(env, policy));
    return true;
  }

  ghost predicate RuleOk(lk: Linked, cs: ConfigSet, l: Config.Listener, r: Config.Route, rule: Rule) {
    EffectiveOn(lk, cs, l, r, rule).unsupported == 0 && RedirectOk(rule.action)
  }

  method BuildAction(rule: Rule) returns (action: RouteAction)
    ensures action == ActionOf(rule.action)
  {
    match rule.action {
      case Forwarding(bs) =>
        if |bs| == 1 && bs[0].weight.None? {
          action := ToCluster(Names.Cluster(bs[0].upstream));
        } else {
          var wc: seq<(string, nat)> := [];
          for i := 0 to |bs|
            invariant |wc| == i
            invariant forall k :: 0 <= k < i ==>
              wc[k] == (Names.Cluster(bs[k].upstream), if bs[k].weight.Some? then bs[k].weight.value else 1)
          {
            var w := 1;
            if bs[i].weight.Some? {
              w := bs[i].weight.value;
            }
            wc := wc + [(Names.Cluster(bs[i].upstream), w)];
          }
          action := ToWeighted(wc);
          assert action == ActionOf(rule.action);
        }
      case Redirect(code) =>
        action := match code
          case 0 => Redirecting(301)
          case 301 => Redirecting(301)
          case 302 => Redirecting(302)
          case 303 => Redirecting(303)
          case 307 => Redirecting(307)
          case 308 => Redirecting(308)
          case _ => NoAction;
      case DirectResponse(status) => action := Responding(status);
    }
  }

  method BuildRule(env: Env, lk: Linked, cs: ConfigSet, l: Config.Listener, r: Config.Route, idx: nat,
                   asm: ExtAuthAssembly, ctx: BuildContext, ghost ps: seq<ExtAuthPolicy>,
                   ghost base: map<string, ClusterView>)
    returns (route: Envoy.Route, errs: seq<CompileError>)
    requires idx < |r.rules|
    requires ctx.Valid() && (OneProvider(ps) ==> Assembled(asm, ctx, env, ps, base))
    modifies asm, ctx
    ensures ctx.Valid() && old(ctx.extAuth).Keys <= ctx.extAuth.Keys
    ensures route == RawRoute(env, lk, cs, l, r, r.rules[idx])
    ensures AllAt(errs, BuildStage)
    ensures OneProvider(ps) ==>
              (errs == []
               <==> (&& OneProvider(ps + Wanted(EffectiveOn(lk, cs, l, r, r.rules[idx])))
                     && RuleOk(lk, cs, l, r, r.rules[idx])))
    ensures OneProvider(ps + Wanted(EffectiveOn(lk, cs, l, r, r.rules[idx]))) ==>
              Assembled(asm, ctx, env, ps + Wanted(EffectiveOn(lk, cs, l, r, r.rules[idx])), base)
  {
    hide OneProvider, Assembled, Fold, TypedPerFilterConfig;
    errs := [];
    var rule := r.rules[idx];
    if !RedirectOk(rule.action) {
      errs := [BuildError(r.name, "rules.redirect.code")];
    }
    var action := BuildAction(rule);
    var eff := NormalizePolicies(lk, Levels(cs, l, r, rule));
    var ok := RegisterExtAuth(env, asm, ctx, eff.extAuth, ps, base);
    if !ok {
      errs := errs + [BuildError(r.name, "rules.policies")];
    }
    ghost var before := errs;
    for i := 0 to eff.unsupported
      invariant AllAt(errs, BuildStage)
      invariant errs == [] <==> before == [] && i == 0
    {
      errs := errs + [BuildError(r.name, "rules.policies")];
    }
    var perFilter := BuildPerFilter(env, eff);
    route := Envoy.Route(rule.match_, action, perFilter);
  }

  ghost predicate RulesOk(lk: Linked, cs: ConfigSet, l: Config.Listener, r: Config.Route, n: nat)
    requires n <= |r.rules|
  {
    forall i :: 0 <= i < n ==> RuleOk(lk, cs, l, r, r.rules[i])
  }

  method BuildVirtualHost(env: Env, lk: Linked, cs: ConfigSet, l: Config.Listener, r: Config.Route,
                          asm: ExtAuthAssembly, ctx: BuildContext, ghost ps: seq<ExtAuthPolicy>,
                          ghost base: map<string, ClusterView>)
    returns (vh: VirtualHost, errs: seq<CompileError>)
    requires ctx.Valid() && (OneProvider(ps) ==> Assembled(asm, ctx, env, ps, base))
    modifies asm, ctx
    ensures ctx.Valid() && old(ctx.extAuth).Keys <= ctx.extAuth.Keys
    ensures vh == RawVhost(env, lk, cs, l, r)
    ensures AllAt(errs, BuildStage)
    ensures OneProvider(ps) ==>
              (errs == []
               <==> (&& OneProvider(ps + WantedByRules(lk, cs, l, r, |r.rules|))
                     && RulesOk(lk, cs, l, r, |r.rules|)))
    ensures OneProvider(ps + WantedByRules(lk, cs, l, r, |r.rules|)) ==>
              Assembled(asm, ctx, env, ps + WantedByRules(lk, cs, l, r, |r.rules|), base)
  {
    hide OneProvider, Assembled, RuleOk, EffectiveOn, RawRoute;
    errs := [];
    var routes: seq<Envoy.Route> := [];
    ghost var qs := ps;
    assert ps + WantedByRules(lk, cs, l, r, 0) == ps;
    for i := 0 to |r.rules|
      invariant ctx.Valid() && old(ctx.extAuth).Keys <= ctx.extAuth.Keys
      invariant qs == ps + WantedByRules(lk, cs, l, r, i)
      invariant OneProvider(qs) ==> Assembled(asm, ctx, env, qs, base)
      invariant |routes| == i && forall k :: 0 <= k < i ==> routes[k] == RawRoute(env, lk, cs, l, r, r.rules[k])
      invariant AllAt(errs, BuildStage)
      invariant OneProvider(ps) ==> (errs == [] <==> OneProvider(qs) && RulesOk(lk, cs, l, r, i))
    {
      ghost var more := Wanted(EffectiveOn(lk, cs, l, r, r.rules[i]));
      var rr, rerrs := BuildRule(env, lk, cs, l, r, i, asm, ctx, qs, base);
      if OneProvider(qs + more) { PrefixProvider(qs, more); }
      assert ps + WantedByRules(lk, cs, l, r, i + 1) == qs + more;
      assert RulesOk(lk, cs, l, r, i + 1) <==> RulesOk(lk, cs, l, r, i) && RuleOk(lk, cs, l, r, r.rules[i]);
      routes, errs, qs := routes + [rr], errs + rerrs, qs + more;
    }
    vh := VirtualHost(Names.VirtualHost(r.name), RouteDomains(r), routes);
    assert vh.routes == RawVhost(env, lk, cs, l, r).routes;
  }

  ghost predicate RoutesOk(lk: Linked, cs: ConfigSet, l: Config.Listener, rs: seq<Config.Route>) {
    forall r :: r in rs ==> RulesOk(lk, cs, l, r, |r.rules|)
  }

  function RawVhosts(env: Env, lk: Linked, cs: ConfigSet, l: Config.Listener, rs: seq<Config.Route>): seq<VirtualHost> {
    seq(|rs|, i requires 0 <= i < |rs| => RawVhost(env, lk, cs, l, rs[i]))
  }

  method BuildVirtualHosts(env: Env, lk: Linked, cs: ConfigSet, l: Config.Listener, asm: ExtAuthAssembly,
      ctx: BuildContext)
    returns (vhosts: seq<VirtualHost>, errs: seq<CompileError>)
    requires ctx.Valid() && asm.config == None
    modifies asm, ctx
    ensures ctx.Valid() && old(ctx.extAuth).Keys <= ctx.extAuth.Keys
    ensures vhosts == RawVhosts(env, lk, cs, l, RoutesOf(cs, l))
    ensures AllAt(errs, BuildStage)
    ensures errs == [] <==> OneProvider(WantedOn(lk, cs, l)) && RoutesOk(lk, cs, l, RoutesOf(cs, l))
    ensures OneProvider(WantedOn(lk, cs, l)) ==> Assembled(asm, ctx, env, WantedOn(lk, cs, l), old(ctx.extAuth))
  {
    hide OneProvider, RulesOk, RawVhost, WantedByRules, WantedByRoutes, RawVhosts, RoutesOk, HttpRoutes, SortedRoutes;
    errs, vhosts := [], [];
    var rs := SortedRoutes(cs);
    ghost var done: seq<Config.Route> := [];
    NoRoutes(env, lk, cs, l);
    assert rs[..0] == [];
    for k := 0 to |rs|
      invariant done == HttpRoutes(rs[..k], l.name)
      invariant ctx.Valid() && old(ctx.extAuth).Keys <= ctx.extAuth.Keys
      invariant OneProvider(WantedByRoutes(lk, cs, l, done)) ==>
        Assembled(asm, ctx, env, WantedByRoutes(lk, cs, l, done), old(ctx.extAuth))
      invariant vhosts == RawVhosts(env, lk, cs, l, done)
      invariant AllAt(errs, BuildStage)
      invariant errs == [] <==> OneProvider(WantedByRoutes(lk, cs, l, done)) && RoutesOk(lk, cs, l, done)
    {
      var r := rs[k];
      HttpRoutesStep(rs, k, l.name);
      if r.rules != [] && AttachesTo(r, l.name) {
        ghost var ps := WantedByRoutes(lk, cs, l, done);
        ghost var more := WantedByRules(lk, cs, l, r, |r.rules|);
        var vh, verrs := BuildVirtualHost(env, lk, cs, l, r, asm, ctx, ps, old(ctx.extAuth));
        if OneProvider(ps + more) { PrefixProvider(ps, more); }
        OneMoreRoute(env, lk, cs, l, done, r);
        vhosts, errs, done := vhosts + [vh], errs + verrs, done + [r];
      }
    }
    assert rs[..|rs|] == rs;
  }

  lemma NoRoutes(env: Env, lk: Linked, cs: ConfigSet, l: Config.Listener)
    ensures OneProvider([]) && WantedByRoutes(lk, cs, l, []) == [] && RawVhosts(env, lk, cs, l, []) == []
    ensures RoutesOk(lk, cs, l, [])
    ensures HttpRoutes([], l.name) == []
  {
  }

  lemma HttpRoutesStep(rs: seq<Config.Route>, k: nat, name: string)
    requires k < |rs|
    ensures HttpRoutes(rs[..k + 1], name)
            == HttpRoutes(rs[..k], name) + if rs[k].rules != [] && AttachesTo(rs[k], name) then [rs[k]] else []
  {
    assert rs[..k + 1][..k] == rs[..k];
  }

  lemma OneMoreRoute(env: Env, lk: Linked, cs: ConfigSet, l: Config.Listener, done: seq<Config.Route>, r: Config.Route)
    ensures WantedByRoutes(lk, cs, l, done + [r])
            == WantedByRoutes(lk, cs, l, done) + WantedByRules(lk, cs, l, r, |r.rules|)
    ensures RawVhosts(env, lk, cs, l, done + [r]) == RawVhosts(env, lk, cs, l, done) + [RawVhost(env, lk, cs, l, r)]
    ensures RoutesOk(lk, cs, l, done + [r]) <==> RoutesOk(lk, cs, l, done) && RulesOk(lk, cs, l, r, |r.rules|)
  {
    hide RawVhost, WantedByRules, RulesOk;
    assert (done + [r])[..|done|] == done;
    assert forall x :: x in done + [r] <==> x in done || x == r;
  }

  /** A connection manager without the filter drops per-route overrides; one with it disables unconfigured routes. */
  method FinalizeExtAuthRoutes(vhosts: seq<VirtualHost>, enabled: bool) returns (out: seq<VirtualHost>)
    ensures |out| == |vhosts| && forall k :: 0 <= k < |vhosts| ==> out[k] == FinalVhost(vhosts[k], enabled)
  {
    out := [];
    for k := 0 to |vhosts|
      invariant |out| == k && forall j :: 0 <= j < k ==> out[j] == FinalVhost(vhosts[j], enabled)
    {
      var routes: seq<Envoy.Route> := [];
      for i := 0 to |vhosts[k].routes|
        invariant |routes| == i && forall j :: 0 <= j < i ==> routes[j] == Finalized(vhosts[k].routes[j], enabled)
      {
        var route := vhosts[k].routes[i];
        if !enabled {
          route := route.(perFilter := route.perFilter - {EXT_AUTHZ});
        } else if EXT_AUTHZ !in route.perFilter {
          route := route.(perFilter := route.perFilter[EXT_AUTHZ := AuthDisabled]);
        }
        routes := routes + [route];
      }
      var vh := vhosts[k].(routes := routes);
      assert vh.routes == FinalVhost(vhosts[k], enabled).routes;
      out := out + [vh];
    }
  }

  /** The listener's route configuration and connection manager. */
  method BuildHcm(env: Env, lk: Linked, cs: ConfigSet, l: Config.Listener, ctx: BuildContext)
    returns (rc: RouteConfig, hcm: Hcm, errs: seq<CompileError>)
    requires ctx.Valid()
    modifies ctx
    ensures ctx.Valid() && old(ctx.extAuth).Keys <= ctx.extAuth.Keys
    ensures AllAt(errs, BuildStage)
    ensures errs == [] <==> OneProvider(WantedOn(lk, cs, l)) && RoutesOk(lk, cs, l, RoutesOf(cs, l))
    ensures errs == [] ==> rc == RouteConfigOf(env, lk, cs, l) && hcm == HcmOf(env, lk, cs, l)
    ensures errs == [] ==> ctx.extAuth == old(ctx.extAuth) + AuthOn(env, WantedOn(lk, cs, l))
  {
    hide OneProvider, RoutesOk, WantedOn, RoutesOf;
    var asm := new ExtAuthAssembly();
    var raw;
    raw, errs := BuildVirtualHosts(env, lk, cs, l, asm, ctx);
    var vhosts := FinalizeExtAuthRoutes(raw, asm.Enabled());
    rc := RouteConfig(Names.RouteConfig(l.name), vhosts);
    var filters := [PlainFilter(RBAC), PlainFilter(CORS), PlainFilter(JWT_AUTHN)];
    if asm.Enabled() {
      filters := filters + [asm.config.value];
    }
    filters := filters + [PlainFilter(LOCAL_RATE_LIMIT), PlainFilter(ROUTER)];
    hcm := Hcm(Names.Listener(l.name), Rds(Names.RouteConfig(l.name)), filters);
    if errs == [] {
      AuthFilterPresent(env, WantedOn(lk, cs, l));
      assert filters == HttpFilters(env, WantedOn(lk, cs, l));
      assert rc.vhosts == RouteConfigOf(env, lk, cs, l).vhosts;
    }
  }
}
