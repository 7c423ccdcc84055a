/** What the data plane does with a configured rule, told from the configuration alone: where the rule's route is found,
    what it matches, where it sends its traffic and which policies it carries. */
module ServedRules {
  import opened Text
  import opened Config
  import opened Link
  import opened Envoy
  import opened Policies
  import opened BuildValues
  import opened BuildRoutes
  import opened ListenerValues
  import opened BuildListeners
  import opened Build
  import opened ModeEquivalence
  import opened Compile
  import Names
  import Ip = IpAccess
  import Sorting

  // Traffic

  function Weight(b: Backend): nat {
    if b.weight.Some? then b.weight.value else 1
  }

  /** The weight that a list of backends gives an upstream. */
  function Share(bs: seq<Backend>, upstream: string): nat {
    if bs == [] then 0
    else
      var b := bs[|bs| - 1];
      Share(bs[..|bs| - 1], upstream) + if b.upstream == upstream then Weight(b) else 0
  }

  function WeightIn(clusters: seq<(string, nat)>, cluster: string): nat {
    if clusters == [] then 0
    else
      var c := clusters[|clusters| - 1];
      WeightIn(clusters[..|clusters| - 1], cluster) + if c.0 == cluster then c.1 else 0
  }

  /** The weight that an action gives a cluster; a single cluster gets everything. */
  function WeightTo(a: RouteAction, cluster: string): nat {
    match a
    case ToCluster(c) => if c == cluster then 1 else 0
    case ToWeighted(cs) => WeightIn(cs, cluster)
    case _ => 0
  }

  /** The action does what the rule asks: every upstream gets the sum of its backends' weights and nothing else gets
      any, a single unweighted backend is a plain cluster, a redirect keeps its code and a response its status. */
  ghost predicate Does(a: RouteAction, action: Action) {
    match action
    case Forwarding(bs) =>
      && (forall u: string :: WeightTo(a, Names.Cluster(u)) == Share(bs, u))
      && (forall c :: c in a.Clusters() ==> exists b :: b in bs && c == Names.Cluster(b.upstream))
      && (if |bs| == 1 && bs[0].weight.None? then a == ToCluster(Names.Cluster(bs[0].upstream)) else a.ToWeighted?)
    case Redirect(code) => a == Redirecting(if code == 0 then 301 else code)
    case DirectResponse(status) => a == Responding(status)
  }

  lemma {:induction false} WeightsMatch(bs: seq<Backend>, clusters: seq<(string, nat)>, u: string)
    requires |clusters| == |bs|
    requires forall i :: 0 <= i < |bs| ==> clusters[i] == (Names.Cluster(bs[i].upstream), Weight(bs[i]))
    ensures WeightIn(clusters, Names.Cluster(u)) == Share(bs, u)
  {
    if bs != [] {
      var n := |bs| - 1;
      WeightsMatch(bs[..n], clusters[..n], u);
      Names.PrefixesInjective(bs[n].upstream, u);
    }
  }

  lemma ActionDoes(action: Action)
    requires RedirectOk(action)
    ensures Does(ActionOf(action), action)
  {
    if action.Forwarding? {
      var bs, a := action.backends, ActionOf(action);
      forall u: string ensures WeightTo(a, Names.Cluster(u)) == Share(bs, u) {
        if a.ToWeighted? {
          WeightsMatch(bs, a.clusters, u);
        } else {
          assert bs[..0] == [];
          Names.PrefixesInjective(bs[0].upstream, u);
        }
      }
      forall c | c in a.Clusters() ensures exists b :: b in bs && c == Names.Cluster(b.upstream) {
        if a.ToWeighted? {
          var i :| 0 <= i < |bs| && a.Clusters()[i] == c;
          assert bs[i] in bs;
        } else {
          assert bs[0] in bs;
        }
      }
    }
  }

  // Policies

  /** The entry of a filter whose policy is carried as text. */
  predicate Carries(perFilter: map<string, PerRoute>, name: string, text: Option<string>) {
    && (name in perFilter <==> text.Some?)
    && (text.Some? ==> perFilter[name] == OtherPerRoute(text.value))
  }

  /** The per-route entries are those of the nearest policies: CORS, rate limit and JWT as text, ipAccess as a
      principal, and no entry of any other filter but ext_authz. */
  ghost predicate CarriesNearest(env: Env, lk: Linked, cs: ConfigSet, l: Config.Listener, r: Config.Route, rule: Rule,
      perFilter: map<string, PerRoute>)
  {
    && Carries(perFilter, CORS, Nearest(lk, cs, l, r, rule, PickCors))
    && Carries(perFilter, LOCAL_RATE_LIMIT, Nearest(lk, cs, l, r, rule, PickRateLimit))
    && Carries(perFilter, JWT_AUTHN, Nearest(lk, cs, l, r, rule, PickJwt))
    && (RBAC in perFilter <==> Nearest(lk, cs, l, r, rule, PickIpAccess).Some?)
    && (RBAC in perFilter ==> perFilter[RBAC].Rbac?)
    && forall n :: n in perFilter ==> n in [CORS, RBAC, LOCAL_RATE_LIMIT, JWT_AUTHN, EXT_AUTHZ]
  }

  lemma NamesDiffer()
    ensures CORS != RBAC && CORS != JWT_AUTHN && CORS != EXT_AUTHZ && CORS != LOCAL_RATE_LIMIT
    ensures RBAC != JWT_AUTHN && RBAC != EXT_AUTHZ && RBAC != LOCAL_RATE_LIMIT
    ensures JWT_AUTHN != EXT_AUTHZ && JWT_AUTHN != LOCAL_RATE_LIMIT && EXT_AUTHZ != LOCAL_RATE_LIMIT
  {
    assert RBAC[19] == 'r' && CORS[19] == 'c' && JWT_AUTHN[19] == 'j' && EXT_AUTHZ[19] == 'e';
    assert LOCAL_RATE_LIMIT[19] == 'l';
  }

  /** What is found under a name in five one-entry maps put together. */
  lemma Together(names: seq<string>, parts: seq<map<string, PerRoute>>, t: map<string, PerRoute>)
    requires |names| == |parts| == 5 && Sorting.Distinct(names)
    requires forall i :: 0 <= i < 5 ==> parts[i].Keys <= {names[i]}
    requires t == parts[0] + parts[1] + parts[2] + parts[3] + parts[4]
    ensures forall i :: 0 <= i < 5 ==> (names[i] in t <==> names[i] in parts[i])
    ensures forall i :: 0 <= i < 5 && names[i] in t ==> t[names[i]] == parts[i][names[i]]
    ensures forall n :: n in t ==> n in names
  {
    forall i | 0 <= i < 5
      ensures names[i] in t <==> names[i] in parts[i]
      ensures names[i] in t ==> t[names[i]] == parts[i][names[i]]
    {
      forall j | 0 <= j < 5 && j != i ensures names[i] !in parts[j] {
        assert names[i] != names[j];
      }
    }
    forall n | n in t ensures n in names {
      var i :| 0 <= i < 5 && n in parts[i];
      assert n == names[i];
    }
  }

  lemma TypedCarries(env: Env, eff: Effective)
    ensures var t := TypedPerFilterConfig(env, eff);
            && Carries(t, CORS, eff.cors) && Carries(t, LOCAL_RATE_LIMIT, eff.rateLimit)
            && Carries(t, JWT_AUTHN, eff.jwt)
            && (RBAC in t <==> eff.ipAccess.Some?) && (RBAC in t ==> t[RBAC].Rbac?)
            && forall n :: n in t ==> n in [CORS, RBAC, LOCAL_RATE_LIMIT, JWT_AUTHN, EXT_AUTHZ]
  {
    hide Ip.PrincipalOf;
    var names := [CORS, RBAC, LOCAL_RATE_LIMIT, JWT_AUTHN, EXT_AUTHZ];
    NamesDistinct(names);
    var parts := [Entry(CORS, eff.cors), RbacEntry(env, eff.ipAccess), Entry(LOCAL_RATE_LIMIT, eff.rateLimit),
                  Entry(JWT_AUTHN, eff.jwt), AuthEntry(eff.extAuth)];
    var t := TypedPerFilterConfig(env, eff);
    Together(names, parts, t);
    assert names[0] in t <==> names[0] in parts[0];
    assert names[1] in t <==> names[1] in parts[1];
    assert names[2] in t <==> names[2] in parts[2];
    assert names[3] in t <==> names[3] in parts[3];
  }

  lemma NamesDistinct(names: seq<string>)
    requires names == [CORS, RBAC, LOCAL_RATE_LIMIT, JWT_AUTHN, EXT_AUTHZ]
    ensures Sorting.Distinct(names)
  {
    NamesDiffer();
  }

  lemma FinalCarries(env: Env, eff: Effective, enabled: bool)
    ensures var perFilter := FinalPerFilter(TypedPerFilterConfig(env, eff), enabled);
            && Carries(perFilter, CORS, eff.cors) && Carries(perFilter, LOCAL_RATE_LIMIT, eff.rateLimit)
            && Carries(perFilter, JWT_AUTHN, eff.jwt)
            && (RBAC in perFilter <==> eff.ipAccess.Some?) && (RBAC in perFilter ==> perFilter[RBAC].Rbac?)
            && forall n :: n in perFilter ==> n in [CORS, RBAC, LOCAL_RATE_LIMIT, JWT_AUTHN, EXT_AUTHZ]
  {
    hide TypedPerFilterConfig;
    TypedCarries(env, eff);
    NamesDiffer();
    assert EXT_AUTHZ in [CORS, RBAC, LOCAL_RATE_LIMIT, JWT_AUTHN, EXT_AUTHZ];
  }

  // The served connection manager

  /** A chain of a listener that ends in a connection manager with its routes in place. */
  predicate HasRoutes(m: Meaning, l: Config.Listener, c: nat) {
    && Names.Listener(l.name) in m.listeners && c < |m.listeners[Names.Listener(l.name)].chains|
    && var fs := m.listeners[Names.Listener(l.name)].chains[c].filters;
       |fs| == 1 && fs[0].HcmFilter? && fs[0].hcm.routes.InlineRoutes?
  }

  function HcmAt(m: Meaning, l: Config.Listener, c: nat): Hcm
    requires HasRoutes(m, l, c)
  {
    m.listeners[Names.Listener(l.name)].chains[c].filters[0].hcm
  }

  function VhostsAt(m: Meaning, l: Config.Listener, c: nat): seq<VirtualHost>
    requires HasRoutes(m, l, c)
  {
    HcmAt(m, l, c).routes.config.vhosts
  }

  lemma HcmServed(env: Env, lk: Linked, cs: ConfigSet, m: Meaning, l: Config.Listener, c: nat)
    requires Serves(env, lk, cs, m) && l in cs.listeners && l.protocol.IsHttp() && Produced(l)
    requires c < |m.listeners[Names.Listener(l.name)].chains|
    ensures HasRoutes(m, l, c) && VhostsAt(m, l, c) == RouteConfigOf(env, lk, cs, l).vhosts
    ensures HcmAt(m, l, c).httpFilters == HttpFilters(env, WantedOn(lk, cs, l))
    ensures HcmAt(m, l, c).statPrefix == Names.Listener(l.name)
  {
    hide RoutesOf, WantedOn, HttpFilters, ListenerMeans, ServesClusters, RouteConfigOf;
    ServedHcm(env, lk, cs, l, c);
  }

  /** An attached HTTP route is one of the listener's virtual hosts. */
  lemma RouteListed(cs: ConfigSet, l: Config.Listener, r: Config.Route) returns (k: nat)
    requires r in cs.routes && r.rules != [] && AttachesTo(r, l.name)
    ensures k < |RoutesOf(cs, l)| && RoutesOf(cs, l)[k] == r
  {
    hide Sorting.Sort;
    Sorting.SortPermutes(cs.routes, RouteLe);
    assert r in RoutesOf(cs, l);
    k :| 0 <= k < |RoutesOf(cs, l)| && RoutesOf(cs, l)[k] == r;
  }

  /** The virtual host of a route: its name, its hostnames or the catch-all, and one route per rule, in order. */
  predicate IsVhostOf(vh: VirtualHost, r: Config.Route) {
    && vh.name == Names.VirtualHost(r.name) && |vh.routes| == |r.rules|
    && multiset(vh.domains) == multiset(if r.hostnames == [] then ["*"] else r.hostnames)
  }

  lemma VhostIs(env: Env, lk: Linked, cs: ConfigSet, l: Config.Listener, k: nat)
    requires k < |RoutesOf(cs, l)|
    ensures k < |RouteConfigOf(env, lk, cs, l).vhosts|
    ensures IsVhostOf(RouteConfigOf(env, lk, cs, l).vhosts[k], RoutesOf(cs, l)[k])
  {
    hide RoutesOf, WantedOn, RawRoute, Finalized, Sorting.Sort;
    Sorting.SortPermutes(RoutesOf(cs, l)[k].hostnames, DomainLe);
  }

  lemma RulesAreOk(env: Env, lk: Linked, cs: ConfigSet, l: Config.Listener, k: nat, i: nat)
    requires BuildOk(env, lk, cs) && l in cs.listeners && l.protocol.IsHttp()
    requires k < |RoutesOf(cs, l)| && i < |RoutesOf(cs, l)[k].rules|
    ensures RuleOk(lk, cs, l, RoutesOf(cs, l)[k], RoutesOf(cs, l)[k].rules[i])
  {
    hide WantedOn, CertificatesOk, OneProvider, RoutesOf, RuleOk;
    assert ListenerOk(env, lk, cs, l);
    assert HttpOk(env, lk, cs, l);
    assert RoutesOf(cs, l)[k] in RoutesOf(cs, l);
    assert RulesOk(lk, cs, l, RoutesOf(cs, l)[k], |RoutesOf(cs, l)[k].rules|);
  }

  /** Every rule of every route attached to a served HTTP listener has its route on every chain: under the route's
      virtual host, at the rule's own position, with the rule's match, action and nearest policies. No basicAuth policy
      is attached to it. */
  lemma ServedRule(env: Env, lk: Linked, cs: ConfigSet, m: Meaning, l: Config.Listener, c: nat, r: Config.Route, i: nat)
    returns (k: nat)
    requires Serves(env, lk, cs, m) && BuildOk(env, lk, cs) && l in cs.listeners && l.protocol.IsHttp() && Produced(l)
    requires c < |m.listeners[Names.Listener(l.name)].chains|
    requires r in cs.routes && AttachesTo(r, l.name) && i < |r.rules|
    ensures k < |RoutesOf(cs, l)| && RoutesOf(cs, l)[k] == r
    ensures HasRoutes(m, l, c) && k < |VhostsAt(m, l, c)| && IsVhostOf(VhostsAt(m, l, c)[k], r)
    ensures var route, rule := VhostsAt(m, l, c)[k].routes[i], r.rules[i];
            && route.match_ == rule.match_ && Does(route.action, rule.action)
            && CarriesNearest(env, lk, cs, l, r, rule, route.perFilter)
            && Nearest(lk, cs, l, r, rule, PickBasicAuth).None?
  {
    hide RoutesOf, WantedOn, BuildOk, Serves, RouteConfigOf, EffectiveOn, TypedPerFilterConfig, FinalPerFilter, Does,
      Carries, ActionOf, HasRoutes, Nearest, IsVhostOf;
    k := RouteListed(cs, l, r);
    HcmServed(env, lk, cs, m, l, c);
    VhostIs(env, lk, cs, l, k);
    RouteAt(env, lk, cs, l, k, i);
    RulesAreOk(env, lk, cs, l, k, i);
    NearestGoverns(lk, cs, l, r, r.rules[i]);
    ActionDoes(r.rules[i].action);
    FinalCarries(env, EffectiveOn(lk, cs, l, r, r.rules[i]), WantedOn(lk, cs, l) != []);
    assert |VhostsAt(m, l, c)[k].routes| == |r.rules| by { RulesOf(VhostsAt(m, l, c)[k], r); }
  }

  lemma RulesOf(vh: VirtualHost, r: Config.Route)
    requires IsVhostOf(vh, r)
    ensures |vh.routes| == |r.rules|
  {
  }

  /** And nothing else is there: every virtual host is that of an attached route, each route having one. */
  lemma ServedVhost(env: Env, lk: Linked, cs: ConfigSet, m: Meaning, l: Config.Listener, c: nat, k: nat)
    returns (r: Config.Route)
    requires Serves(env, lk, cs, m) && WellFormed(cs) && l in cs.listeners && l.protocol.IsHttp() && Produced(l)
    requires c < |m.listeners[Names.Listener(l.name)].chains|
    ensures HasRoutes(m, l, c)
    ensures k < |VhostsAt(m, l, c)| ==>
      && r in cs.routes && r.rules != [] && AttachesTo(r, l.name) && IsVhostOf(VhostsAt(m, l, c)[k], r)
      && forall j :: 0 <= j < |VhostsAt(m, l, c)| && IsVhostOf(VhostsAt(m, l, c)[j], r) ==> j == k
  {
    hide WantedOn, Serves, RouteConfigOf, HasRoutes, IsVhostOf, WellFormed, RoutesOf;
    HcmServed(env, lk, cs, m, l, c);
    VhostCount(env, lk, cs, l);
    if k < |VhostsAt(m, l, c)| {
      var rs := RoutesOf(cs, l);
      r := rs[k];
      VhostIs(env, lk, cs, l, k);
      ListedIsAttached(cs, l, k);
      forall j | 0 <= j < |VhostsAt(m, l, c)| && IsVhostOf(VhostsAt(m, l, c)[j], r) ensures j == k {
        VhostIs(env, lk, cs, l, j);
        OneVhost(cs, l, VhostsAt(m, l, c)[j], j, k);
      }
    } else {
      r := Config.Route("", [], [], [], [], None);
    }
  }

  lemma VhostCount(env: Env, lk: Linked, cs: ConfigSet, l: Config.Listener)
    ensures |RouteConfigOf(env, lk, cs, l).vhosts| == |RoutesOf(cs, l)|
  {
    hide RoutesOf, WantedOn, RawVhost, FinalVhost;
  }

  lemma ListedIsAttached(cs: ConfigSet, l: Config.Listener, k: nat)
    requires k < |RoutesOf(cs, l)|
    ensures var r := RoutesOf(cs, l)[k]; r in cs.routes && r.rules != [] && AttachesTo(r, l.name)
  {
    hide Sorting.Sort;
    Sorting.SortPermutes(cs.routes, RouteLe);
    assert RoutesOf(cs, l)[k] in RoutesOf(cs, l);
  }

  lemma OneVhost(cs: ConfigSet, l: Config.Listener, vh: VirtualHost, j: nat, k: nat)
    requires WellFormed(cs) && j < |RoutesOf(cs, l)| && k < |RoutesOf(cs, l)|
    requires IsVhostOf(vh, RoutesOf(cs, l)[j]) && IsVhostOf(vh, RoutesOf(cs, l)[k])
    ensures j == k
  {
    hide RoutesOf;
    var a, b := RoutesOf(cs, l)[j], RoutesOf(cs, l)[k];
    assert Names.VirtualHost(a.name)[3..] == a.name && Names.VirtualHost(b.name)[3..] == b.name;
    ListedIsAttached(cs, l, j);
    ListedIsAttached(cs, l, k);
    var x :| 0 <= x < |cs.routes| && cs.routes[x] == a;
    var y :| 0 <= y < |cs.routes| && cs.routes[y] == b;
    assert x == y;
    RoutesDistinct(cs, l);
  }

  lemma RoutesDistinct(cs: ConfigSet, l: Config.Listener)
    requires WellFormed(cs)
    ensures Sorting.Distinct(RoutesOf(cs, l))
  {
    hide Sorting.Sort;
    assert Sorting.Distinct(cs.routes);
    Sorting.SortKeepsDistinct(cs.routes, RouteLe);
    HttpRoutesDistinct(SortedRoutes(cs), l.name);
  }

  lemma {:induction false} HttpRoutesDistinct(rs: seq<Config.Route>, listener: string)
    requires Sorting.Distinct(rs)
    ensures Sorting.Distinct(HttpRoutes(rs, listener))
  {
    if rs != [] {
      var r, rest := rs[|rs| - 1], rs[..|rs| - 1];
      assert Sorting.Distinct(rest);
      HttpRoutesDistinct(rest, listener);
      assert r !in rest;
    }
  }

  // The filter chain

  /** The fixed order of the HTTP filters. */
  function Rank(f: HttpFilter): nat {
    match f
    case ExtAuthz(_, _, _) => 4
    case PlainFilter(name) =>
      if name == RBAC then 1 else if name == CORS then 2 else if name == JWT_AUTHN then 3
      else if name == LOCAL_RATE_LIMIT then 5 else if name == ROUTER then 6 else 0
  }

  /** On every chain the filters come in the fixed order rbac, cors, jwt_authn, ext_authz, local_ratelimit, router, each
      once; only ext_authz may be absent, and is exactly when no rule of the listener wants it. */
  lemma ServedFilterOrder(env: Env, lk: Linked, cs: ConfigSet, m: Meaning, l: Config.Listener, c: nat)
    requires Serves(env, lk, cs, m) && l in cs.listeners && l.protocol.IsHttp() && Produced(l)
    requires c < |m.listeners[Names.Listener(l.name)].chains|
    ensures HasRoutes(m, l, c) && HcmAt(m, l, c).statPrefix == Names.Listener(l.name)
    ensures var fs := HcmAt(m, l, c).httpFilters;
            && (forall i, j :: 0 <= i < j < |fs| ==> Rank(fs[i]) < Rank(fs[j]))
            && (forall i :: 0 <= i < |fs| ==> 1 <= Rank(fs[i]) <= 6)
            && PlainFilter(RBAC) in fs && PlainFilter(CORS) in fs && PlainFilter(JWT_AUTHN) in fs
            && PlainFilter(LOCAL_RATE_LIMIT) in fs && PlainFilter(ROUTER) in fs
            && ((exists f :: f in fs && f.ExtAuthz?)
                <==> exists r, i: nat :: && r in cs.routes && AttachesTo(r, l.name) && i < |r.rules|
                                         && Wants(Nearest(lk, cs, l, r, r.rules[i], PickExtAuth)))
  {
    hide WantedOn, Serves, HasRoutes, Nearest, HttpFilters;
    HcmServed(env, lk, cs, m, l, c);
    FiltersInOrder(env, WantedOn(lk, cs, l));
    AuthFilterPresent(env, WantedOn(lk, cs, l));
    WantedIff(lk, cs, l);
  }

  lemma RanksAre()
    ensures Rank(PlainFilter(RBAC)) == 1 && Rank(PlainFilter(CORS)) == 2 && Rank(PlainFilter(JWT_AUTHN)) == 3
    ensures Rank(PlainFilter(LOCAL_RATE_LIMIT)) == 5 && Rank(PlainFilter(ROUTER)) == 6
  {
    NamesDiffer();
    assert |ROUTER| == 25 && |LOCAL_RATE_LIMIT| == 34 && |RBAC| == 23 && |CORS| == 23 && |JWT_AUTHN| == 28;
  }

  lemma FiltersInOrder(env: Env, ps: seq<ExtAuthPolicy>)
    ensures var fs := HttpFilters(env, ps);
            && (forall i, j :: 0 <= i < j < |fs| ==> Rank(fs[i]) < Rank(fs[j]))
            && (forall i :: 0 <= i < |fs| ==> 1 <= Rank(fs[i]) <= 6)
            && PlainFilter(RBAC) in fs && PlainFilter(CORS) in fs && PlainFilter(JWT_AUTHN) in fs
            && PlainFilter(LOCAL_RATE_LIMIT) in fs && PlainFilter(ROUTER) in fs
  {
    hide Rank, KeyOf;
    RanksAre();
    var fs := HttpFilters(env, ps);
    assert fs[0] == PlainFilter(RBAC) && fs[1] == PlainFilter(CORS) && fs[2] == PlainFilter(JWT_AUTHN);
    if ps != [] {
      AuthRank(env, ps[0]);
      assert fs[3] == AuthFilter(env, ps[0]);
    }
    assert fs[|fs| - 2] == PlainFilter(LOCAL_RATE_LIMIT) && fs[|fs| - 1] == PlainFilter(ROUTER);
    assert |fs| == if ps == [] then 5 else 6;
  }

  lemma AuthRank(env: Env, p: ExtAuthPolicy)
    ensures Rank(AuthFilter(env, p)) == 4
  {
  }

  /** Some provider is wanted on a listener exactly when some rule's nearest extAuth policy wants one. */
  lemma WantedIff(lk: Linked, cs: ConfigSet, l: Config.Listener)
    ensures WantedOn(lk, cs, l) != []
            <==> exists r, i: nat :: && r in cs.routes && AttachesTo(r, l.name) && i < |r.rules|
                                     && Wants(Nearest(lk, cs, l, r, r.rules[i], PickExtAuth))
  {
    hide RoutesOf, Nearest, EffectiveOn, WantedByRoutes, WantedByRules;
    var ps := WantedOn(lk, cs, l);
    if ps != [] {
      var r := WantedByRoutesFrom(lk, cs, l, RoutesOf(cs, l), ps[0]);
      var i := WantedByRulesFrom(lk, cs, l, r, |r.rules|, ps[0]);
      var k :| 0 <= k < |RoutesOf(cs, l)| && RoutesOf(cs, l)[k] == r;
      ListedIsAttached(cs, l, k);
      NearestGoverns(lk, cs, l, r, r.rules[i]);
      assert Wants(Nearest(lk, cs, l, r, r.rules[i], PickExtAuth));
    }
    if r, i: nat :| && r in cs.routes && AttachesTo(r, l.name) && i < |r.rules|
                    && Wants(Nearest(lk, cs, l, r, r.rules[i], PickExtAuth)) {
      var k := RouteListed(cs, l, r);
      NearestGoverns(lk, cs, l, r, r.rules[i]);
      WantedListed(lk, cs, l, r, i);
    }
  }

  /** A wanted provider is what some rule asks for. */
  lemma {:induction false} WantedByRulesFrom(lk: Linked, cs: ConfigSet, l: Config.Listener, r: Config.Route, n: nat,
      p: ExtAuthPolicy) returns (i: nat)
    requires n <= |r.rules| && p in WantedByRules(lk, cs, l, r, n)
    ensures i < n && EffectiveOn(lk, cs, l, r, r.rules[i]).extAuth == Some(p) && !p.disabled
  {
    hide EffectiveOn;
    if p in WantedByRules(lk, cs, l, r, n - 1) {
      i := WantedByRulesFrom(lk, cs, l, r, n - 1, p);
    } else {
      i := n - 1;
    }
  }

  lemma {:induction false} WantedByRoutesFrom(lk: Linked, cs: ConfigSet, l: Config.Listener, rs: seq<Config.Route>,
      p: ExtAuthPolicy) returns (r: Config.Route)
    requires p in WantedByRoutes(lk, cs, l, rs)
    ensures r in rs && p in WantedByRules(lk, cs, l, r, |r.rules|)
  {
    hide WantedByRules;
    var rest := rs[..|rs| - 1];
    if p in WantedByRoutes(lk, cs, l, rest) {
      r := WantedByRoutesFrom(lk, cs, l, rest, p);
    } else {
      r := rs[|rs| - 1];
    }
  }
}
