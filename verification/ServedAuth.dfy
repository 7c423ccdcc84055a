/** What the data plane does for a rule: which authorization service it contacts, and which addresses it admits. */
module ServedAuth {
  import opened Text
  import opened Config
  import opened Link
  import opened Envoy
  import opened Policies
  import opened ProviderKeys
  import opened BuildValues
  import opened BuildRoutes
  import opened ListenerValues
  import opened BuildListeners
  import opened Build
  import opened ModeEquivalence
  import opened TidyMeaning
  import opened Compile
  import opened ServedRules
  import Names
  import Ip = IpAccess
  import Sorting

  // Policies and their URLs

  predicate SpecOk(spec: PolicySpec) {
    spec.ExtAuth? ==> Validated(spec.auth.service)
  }

  ghost predicate AttachmentsOk(atts: seq<Attachment>) {
    forall a :: a in atts && a.Inline? ==> SpecOk(a.spec)
  }

  /** Every external authorization service passed validation. */
  ghost predicate ServicesOk(lk: Linked, cs: ConfigSet) {
    && (forall n :: n in lk.policies ==> SpecOk(lk.policies[n]))
    && AttachmentsOk(cs.gatewayPolicies)
    && (forall l :: l in cs.listeners ==> AttachmentsOk(l.policies))
    && (forall r :: r in cs.routes ==> AttachmentsOk(r.policies))
    && (forall r, rule :: r in cs.routes && rule in r.rules ==> AttachmentsOk(rule.policies))
  }

  lemma EffectiveValidated(lk: Linked, cs: ConfigSet, l: Config.Listener, r: Config.Route, rule: Rule)
    requires ServicesOk(lk, cs) && l in cs.listeners && r in cs.routes && rule in r.rules
    requires EffectiveOn(lk, cs, l, r, rule).extAuth.Some?
    ensures Validated(EffectiveOn(lk, cs, l, r, rule).extAuth.value.service)
  {
    hide Fold, Validated;
    var levels := Levels(cs, l, r, rule);
    var atts := Flatten(levels);
    NormalisationIsNearest(lk, atts);
    var p := EffectiveOn(lk, cs, l, r, rule).extAuth.value;
    var i :| 0 <= i < |atts| && Picks(lk, atts[i], PickExtAuth) == Some(p);
    assert atts == cs.gatewayPolicies + l.policies + r.policies + rule.policies by { FourLevels(levels); }
    assert atts[i] in cs.gatewayPolicies || atts[i] in l.policies || atts[i] in r.policies || atts[i] in rule.policies;
  }

  lemma WantedValidated(lk: Linked, cs: ConfigSet, l: Config.Listener, p: ExtAuthPolicy)
    requires ServicesOk(lk, cs) && l in cs.listeners && p in WantedOn(lk, cs, l)
    ensures Validated(p.service)
  {
    hide ServicesOk, Validated, EffectiveOn, WantedByRules, WantedByRoutes, Sorting.Sort;
    var r := WantedByRoutesFrom(lk, cs, l, RoutesOf(cs, l), p);
    var i := WantedByRulesFrom(lk, cs, l, r, |r.rules|, p);
    Sorting.SortPermutes(cs.routes, RouteLe);
    EffectiveValidated(lk, cs, l, r, r.rules[i]);
  }

  // The cluster behind a filter

  /** The digest tells the provider keys in use apart. */
  ghost predicate DigestApart(env: Env, lk: Linked, cs: ConfigSet) {
    forall k, l :: k in cs.listeners && l in cs.listeners && WantedOn(lk, cs, k) != [] && WantedOn(lk, cs, l) != []
      && env.digest(KeyOf(WantedOn(lk, cs, k)[0])) == env.digest(KeyOf(WantedOn(lk, cs, l)[0]))
      ==> KeyOf(WantedOn(lk, cs, k)[0]) == KeyOf(WantedOn(lk, cs, l)[0])
  }

  function EndpointsOf(c: ClusterMeaning): seq<Endpoint> {
    match c
    case FixedEndpoints(a) => if a.Some? then a.value.endpoints else []
    case Discovered(_, seeds) => if seeds.Some? then seeds.value.endpoints else []
  }

  /** The cluster leads to the service's host and port, and nowhere else; an IP address is fixed and a host name is
      resolved by DNS. */
  predicate Contacts(env: Env, c: ClusterMeaning, service: ExtAuthService)
    requires !service.NoService?
  {
    var es := EndpointsOf(c);
    && |es| == 1 && ToLower(es[0].address) == ToLower(service.host) && es[0].port == service.port
    && (if env.isIp(es[0].address) then c.FixedEndpoints? else c.Discovered? && c.discovery.StrictDns?)
  }

  lemma AuthClusterContacts(env: Env, q: ExtAuthPolicy, service: ExtAuthService)
    requires !q.service.NoService? && !service.NoService? && ToLower(q.service.host) == ToLower(service.host)
    requires q.service.port == service.port
    ensures Contacts(env, DirectCluster(AuthCluster(env, q)), service)
  {
  }

  lemma ExtAuthNamesInjective(a: string, b: string)
    requires Names.ExtAuthCluster(a) == Names.ExtAuthCluster(b)
    ensures a == b
  {
    assert Names.ExtAuthCluster(a)[8..] == a && Names.ExtAuthCluster(b)[8..] == b;
  }

  lemma ProvidersReal(env: Env, lk: Linked, cs: ConfigSet, l: Config.Listener)
    requires BuildOk(env, lk, cs) && l in cs.listeners && l.protocol.IsHttp()
    ensures OneProvider(WantedOn(lk, cs, l))
  {
    hide WantedOn, RoutesOk, CertificatesOk, OneProvider;
    assert ListenerOk(env, lk, cs, l);
    assert HttpOk(env, lk, cs, l);
  }

  /** The cluster named by a listener's filter leads to the listener's provider, whichever listener defined it. */
  lemma FilterLeadsToProvider(env: Env, lk: Linked, cs: ConfigSet, m: Meaning, l: Config.Listener,
      policy: ExtAuthPolicy)
    requires Serves(env, lk, cs, m) && BuildOk(env, lk, cs) && ServicesOk(lk, cs) && DigestApart(env, lk, cs)
    requires l in cs.listeners && l.protocol.IsHttp() && WantedOn(lk, cs, l) != [] && !policy.service.NoService?
    requires Validated(policy.service)
    requires KeyOf(WantedOn(lk, cs, l)[0]) == KeyOf(policy)
    ensures var n := AuthFilter(env, WantedOn(lk, cs, l)[0]).cluster;
            n in m.clusters && Contacts(env, m.clusters[n], policy.service)
  {
    hide WantedOn, AuthClusters, KeyOf, ServicesOk, Validated, DirectCluster, Contacts, AuthCluster, BuildOk, Serves,
      ServesClusters, SamePlace;
    var p := WantedOn(lk, cs, l)[0];
    var n := AuthFilter(env, p).cluster;
    ProvidersReal(env, lk, cs, l);
    SortedHasAll(cs);
    assert n == AuthCluster(env, p).name by { ClusterNamed(env, p); }
    AuthListed(env, lk, cs, SortedListeners(cs), l);
    var k := AuthComesFrom(env, lk, cs, SortedListeners(cs), n);
    var q := WantedOn(lk, cs, k)[0];
    ClusterNamed(env, q);
    ExtAuthNamesInjective(env.digest(KeyOf(p)), env.digest(KeyOf(q)));
    assert KeyOf(q) == KeyOf(policy);
    WantedValidated(lk, cs, k, q);
    ValidatedIsUrlOk(q.service);
    ValidatedIsUrlOk(policy.service);
    KeyNamesPlace(q, policy);
    PlaceIs(q, policy);
    AuthClusterContacts(env, q, policy.service);
    AuthIsServed(env, lk, cs, m, n);
  }

  lemma PlaceIs(p: ExtAuthPolicy, q: ExtAuthPolicy)
    requires SamePlace(p, q)
    ensures !p.service.NoService? && !q.service.NoService? && ToLower(p.service.host) == ToLower(q.service.host)
    ensures p.service.port == q.service.port
    ensures p.failOpen == q.failOpen && (p.service.Grpc? <==> q.service.Grpc?)
    ensures p.service.Http? ==> ToLower(p.service.scheme) == ToLower(q.service.scheme)
  {
  }

  lemma PathIs(p: ExtAuthPolicy, q: ExtAuthPolicy)
    requires SameProvider(p, q)
    ensures p.service.Http? ==> q.service.Http? && p.service.pathPrefix == q.service.pathPrefix
  {
  }

  lemma ClusterNamed(env: Env, p: ExtAuthPolicy)
    requires !p.service.NoService?
    ensures AuthCluster(env, p).name == AuthFilter(env, p).cluster == Names.ExtAuthCluster(env.digest(KeyOf(p)))
  {
  }

  lemma AuthIsServed(env: Env, lk: Linked, cs: ConfigSet, m: Meaning, n: string)
    requires Serves(env, lk, cs, m) && n in AuthClusters(env, lk, cs, SortedListeners(cs))
    ensures n in m.clusters && m.clusters[n] == DirectCluster(AuthClusters(env, lk, cs, SortedListeners(cs))[n])
  {
    hide AuthClusters, ListenerMeans, UpstreamMeans, DirectCluster, Produced, Buildable;
  }

  /** The filter f asks the service of policy p: its cluster leads there, the failure mode, the kind of service and the
      scheme are the policy's, and so is the path, unless the policy's key fits another provider too. */
  ghost predicate Asks(env: Env, m: Meaning, f: HttpFilter, p: ExtAuthPolicy) {
    && f.ExtAuthz? && !p.service.NoService? && f.failOpen == p.failOpen
    && f.cluster in m.clusters && Contacts(env, m.clusters[f.cluster], p.service)
    && (f.target.GrpcTarget? <==> p.service.Grpc?)
    && (f.target.HttpTarget? ==>
          && p.service.Http? && ToLower(f.target.scheme) == ToLower(p.service.scheme)
          && ToLower(f.target.host) == ToLower(p.service.host) && f.target.port == p.service.port
          && (!Mistakable(p.service) ==> f.target.pathPrefix == p.service.pathPrefix))
  }

  lemma FilterAsks(env: Env, lk: Linked, cs: ConfigSet, m: Meaning, l: Config.Listener, p: ExtAuthPolicy)
    requires Serves(env, lk, cs, m) && BuildOk(env, lk, cs) && ServicesOk(lk, cs) && DigestApart(env, lk, cs)
    requires l in cs.listeners && l.protocol.IsHttp() && WantedOn(lk, cs, l) != [] && p in WantedOn(lk, cs, l)
    ensures Asks(env, m, AuthFilter(env, WantedOn(lk, cs, l)[0]), p)
  {
    hide WantedOn, KeyOf, ServicesOk, Validated, Contacts, BuildOk, Serves, SamePlace,
      SameProvider, Mistakable, DigestApart;
    var ps := WantedOn(lk, cs, l);
    ProvidersReal(env, lk, cs, l);
    WantedValidated(lk, cs, l, p);
    WantedValidated(lk, cs, l, ps[0]);
    ValidatedIsUrlOk(p.service);
    ValidatedIsUrlOk(ps[0].service);
    KeyNamesPlace(ps[0], p);
    PlaceIs(ps[0], p);
    if !Mistakable(p.service) {
      NotMistakenIsSame(p, ps[0]);
      PathIs(p, ps[0]);
    }
    FilterLeadsToProvider(env, lk, cs, m, l, p);
  }

  /** In the compiled result, on every chain of an HTTP listener, the rule of an attached route is subject to external
      authorization exactly when its nearest extAuth attachment (rule, else route, else listener, else Gateway) exists
      and is not disabled, and then that policy's service is asked. */
  lemma ServedExtAuth(env: Env, lk: Linked, cs: ConfigSet, m: Meaning, l: Config.Listener, c: nat, r: Config.Route,
      i: nat) returns (k: nat)
    requires Serves(env, lk, cs, m) && BuildOk(env, lk, cs) && ServicesOk(lk, cs) && DigestApart(env, lk, cs)
    requires l in cs.listeners && l.protocol.IsHttp() && Produced(l)
    requires c < |m.listeners[Names.Listener(l.name)].chains|
    requires r in cs.routes && AttachesTo(r, l.name) && i < |r.rules|
    ensures HasRoutes(m, l, c) && k < |VhostsAt(m, l, c)| && IsVhostOf(VhostsAt(m, l, c)[k], r)
    ensures
      var filters, route := HcmAt(m, l, c).httpFilters, VhostsAt(m, l, c)[k].routes[i];
      var nearest := Nearest(lk, cs, l, r, r.rules[i], PickExtAuth);
      && (RunsExtAuthz(filters, route.perFilter) <==> Wants(nearest))
      && (Wants(nearest) ==> forall f :: f in filters && f.ExtAuthz? ==> Asks(env, m, f, nearest.value))
  {
    hide RoutesOf, WantedOn, HttpFilters, EffectiveOn, RunsExtAuthz, Serves, Asks, OneProvider, BuildOk, ServicesOk,
      DigestApart, RouteConfigOf, Nearest, CarriesNearest, IsVhostOf, HasRoutes, Does;
    k := ServedRule(env, lk, cs, m, l, c, r, i);
    HcmServed(env, lk, cs, m, l, c);
    ProvidersReal(env, lk, cs, l);
    ExtAuthKeepsMeaning(env, lk, cs, l, k, i);
    NearestGoverns(lk, cs, l, r, r.rules[i]);
    var nearest := Nearest(lk, cs, l, r, r.rules[i], PickExtAuth);
    if Wants(nearest) {
      WantedListed(lk, cs, l, r, i);
      FilterAsks(env, lk, cs, m, l, nearest.value);
    }
  }

  /** In the compiled result, on every chain of an HTTP listener, the rule of an attached route admits exactly the
      remote addresses that its nearest ipAccess attachment admits, and all of them when it has none. */
  lemma ServedIpAccess(env: Env, lk: Linked, cs: ConfigSet, m: Meaning, l: Config.Listener, c: nat, r: Config.Route,
      i: nat, a: Ip.Addr) returns (k: nat)
    requires Serves(env, lk, cs, m) && BuildOk(env, lk, cs) && Ip.Faithful(env.cidr)
    requires l in cs.listeners && l.protocol.IsHttp() && Produced(l)
    requires c < |m.listeners[Names.Listener(l.name)].chains|
    requires r in cs.routes && AttachesTo(r, l.name) && i < |r.rules|
    ensures HasRoutes(m, l, c) && k < |VhostsAt(m, l, c)| && IsVhostOf(VhostsAt(m, l, c)[k], r)
    ensures
      var nearest := Nearest(lk, cs, l, r, r.rules[i], PickIpAccess);
      AdmitsAddress(HcmAt(m, l, c).httpFilters, VhostsAt(m, l, c)[k].routes[i].perFilter, a)
      <==> (nearest.Some? ==> Ip.Admits(nearest.value, a))
  {
    hide RoutesOf, WantedOn, HttpFilters, Serves, BuildOk, RouteConfigOf, Ip.Faithful, Ip.Admits, AdmitsAddress,
      TypedPerFilterConfig, FinalPerFilter, EffectiveOn, Nearest, CarriesNearest, IsVhostOf, HasRoutes, Does;
    k := ServedRule(env, lk, cs, m, l, c, r, i);
    HcmServed(env, lk, cs, m, l, c);
    RouteAt(env, lk, cs, l, k, i);
    NearestGoverns(lk, cs, l, r, r.rules[i]);
    RbacPresent(env, WantedOn(lk, cs, l));
    AccessKeepsMeaning(env, HttpFilters(env, WantedOn(lk, cs, l)), EffectiveOn(lk, cs, l, r, r.rules[i]),
      WantedOn(lk, cs, l) != [], a);
  }

  lemma RbacPresent(env: Env, ps: seq<ExtAuthPolicy>)
    ensures PlainFilter(RBAC) in HttpFilters(env, ps)
  {
    assert HttpFilters(env, ps)[0] == PlainFilter(RBAC);
  }
}
