/** What the data plane does with a configured listener and a configured upstream, told from the configuration alone:
    TLS termination and client certificates, TCP, TLS and UDP forwarding, endpoints and their discovery. */
module ServedListeners {
  import opened Text
  import opened Config
  import opened Link
  import opened LinkL4
  import opened Envoy
  import opened Policies
  import opened BuildValues
  import opened ListenerValues
  import opened BuildRoutes
  import opened BuildListeners
  import opened Build
  import opened ModeEquivalence
  import opened TidyMeaning
  import opened CompiledWork
  import opened Compile
  import Names
  import Sorting

  function At(m: Meaning, l: Config.Listener): ListenerMeaning
    requires Names.Listener(l.name) in m.listeners
  {
    m.listeners[Names.Listener(l.name)]
  }

  lemma IsServed(env: Env, lk: Linked, cs: ConfigSet, m: Meaning, l: Config.Listener)
    requires Serves(env, lk, cs, m) && l in cs.listeners && Produced(l)
    ensures Names.Listener(l.name) in m.listeners && Buildable(cs, l) && At(m, l) == ListenerMeans(env, lk, cs, l)
  {
    hide ListenerMeans, ServesClusters;
  }

  // HTTP and HTTPS

  /** An HTTPS listener has one chain per certificate, in order. Chain c serves the names of certificate c under exactly
      that pair of files. A client certificate is demanded exactly when a client CA is configured, and is then checked
      against that CA; without one nothing is checked. */
  lemma ServedTls(env: Env, lk: Linked, cs: ConfigSet, m: Meaning, l: Config.Listener, c: nat)
    requires Serves(env, lk, cs, m) && BuildOk(env, lk, cs) && l in cs.listeners && l.protocol.HTTPS? && Produced(l)
    requires l.tls.Some? && c < |l.tls.value.certificates|
    ensures Names.Listener(l.name) in m.listeners && At(m, l).listenerFilters == [TlsInspector]
    ensures |At(m, l).chains| == |l.tls.value.certificates| && At(m, l).chains[c].tls.Some?
    ensures var cert, ca, chain := l.tls.value.certificates[c], l.tls.value.clientCa, At(m, l).chains[c];
            && env.extract(cert.certFile) == Some(chain.serverNames) && chain.serverNames != []
            && chain.tls.value.certs == [Some(Certificate(cert.certFile, cert.keyFile))]
            && (chain.tls.value.requireClientCert <==> ca != "")
            && chain.tls.value.validation
               == (if ca == "" then NoValidation else InlineValidation(ValidationContext(Some(ca))))
  {
    hide Serves, BuildOk, HcmFilterOf, RouteConfigOf, DirectFilter, OneProvider, WantedOn, RoutesOk, RoutesOf;
    IsServed(env, lk, cs, m, l);
    CertificatesAreOk(env, lk, cs, l);
    var cert := l.tls.value.certificates[c];
    assert cert in l.tls.value.certificates;
    var chain := ViewOf(env, lk, cs, l).chains[c];
    assert chain.tls.value.certs == [Certificate(cert.certFile, cert.keyFile)];
    assert At(m, l).chains[c] == DirectChain([RouteConfigOf(env, lk, cs, l)], chain);
  }

  lemma CertificatesAreOk(env: Env, lk: Linked, cs: ConfigSet, l: Config.Listener)
    requires BuildOk(env, lk, cs) && l in cs.listeners && l.protocol.HTTPS? && l.tls.Some?
    ensures CertificatesOk(env, l.tls.value.certificates)
  {
    hide CertificatesOk, OneProvider, WantedOn, RoutesOk, RoutesOf;
    assert ListenerOk(env, lk, cs, l);
    assert HttpOk(env, lk, cs, l);
  }

  /** Under any server name at most one certificate is presented. */
  lemma ServedNameHasOneCertificate(env: Env, lk: Linked, cs: ConfigSet, m: Meaning, l: Config.Listener, c: nat, d: nat,
      n: string)
    requires Serves(env, lk, cs, m) && BuildOk(env, lk, cs) && l in cs.listeners && l.protocol.HTTPS? && Produced(l)
    requires l.tls.Some? && c < |l.tls.value.certificates| && d < |l.tls.value.certificates|
    ensures Names.Listener(l.name) in m.listeners && |At(m, l).chains| == |l.tls.value.certificates|
    ensures n in At(m, l).chains[c].serverNames && n in At(m, l).chains[d].serverNames ==> c == d
  {
    hide Serves, BuildOk, CertificatesOk, ServerNames;
    ServedTls(env, lk, cs, m, l, c);
    ServedTls(env, lk, cs, m, l, d);
    CertificatesAreOk(env, lk, cs, l);
    NamesDistinct(env, l.tls.value.certificates);
    if n in At(m, l).chains[c].serverNames && n in At(m, l).chains[d].serverNames {
      NameHasOneCertificate(env, l.tls.value.certificates, c, d, n);
    }
  }

  /** An HTTP listener has one chain, for any name and without TLS. */
  lemma ServedPlain(env: Env, lk: Linked, cs: ConfigSet, m: Meaning, l: Config.Listener)
    requires Serves(env, lk, cs, m) && l in cs.listeners && l.protocol.HTTP?
    ensures Names.Listener(l.name) in m.listeners && At(m, l).listenerFilters == []
    ensures |At(m, l).chains| == 1 && At(m, l).chains[0].tls.None? && At(m, l).chains[0].serverNames == []
  {
    hide Serves, HcmFilterOf, RouteConfigOf, DirectFilter;
    IsServed(env, lk, cs, m, l);
  }

  // TCP, UDP and TLS passthrough

  /** The route is an L4 route attached to the listener. */
  predicate Attached(cs: ConfigSet, l: Config.Listener, r: Config.Route) {
    r in cs.routes && r.IsForward() && AttachesTo(r, l.name)
  }

  /** A TCP or UDP listener has exactly one attached route, and everything goes to that route's upstream. */
  lemma ServedForward(env: Env, lk: Linked, cs: ConfigSet, m: Meaning, l: Config.Listener) returns (r: Config.Route)
    requires WellFormed(cs) && LinkOk(lk, cs) && Serves(env, lk, cs, m) && l in cs.listeners
    requires l.protocol.TCP? || l.protocol.UDP?
    ensures Attached(cs, l, r) && forall other :: Attached(cs, l, other) ==> other == r
    ensures Names.Listener(l.name) in m.listeners
    ensures l.protocol.TCP? ==>
      && At(m, l).listenerFilters == []
      && At(m, l).chains == [ChainMeaning([], None, [TcpProxy(Names.Cluster(r.forward.value.upstream))])]
    ensures l.protocol.UDP? ==>
      At(m, l).chains == [] && At(m, l).listenerFilters == [UdpProxy(Names.Cluster(r.forward.value.upstream))]
  {
    hide Serves, WellFormed, RouteConfigOf, AttachedTo, ForwardsOf, DirectChain, LinkOk;
    IsServed(env, lk, cs, m, l);
    assert |AttachedTo(cs.routes, l.name)| == 1 by { OneAttached(lk, cs, l); }
    OneForward(cs, l);
    r := AttachedTo(cs.routes, l.name)[0];
    forall other ensures Attached(cs, l, other) <==> other in ForwardsOf(cs, l) {
      AttachedIff(cs.routes, l.name, other);
      ForwardsMatchAttached(cs, l, other);
    }
    assert r in ForwardsOf(cs, l);
    ProxyMeans(Names.Cluster(r.forward.value.upstream), [RouteConfigOf(env, lk, cs, l)]);
  }

  lemma ProxyMeans(cluster: string, routes: seq<RouteConfig>)
    ensures DirectChain(routes, ChainView([], None, [TcpProxy(cluster)])) == ChainMeaning([], None, [TcpProxy(cluster)])
  {
    var chain := DirectChain(routes, ChainView([], None, [TcpProxy(cluster)]));
    assert chain.filters == [TcpProxy(cluster)];
  }

  lemma OneAttached(lk: Linked, cs: ConfigSet, l: Config.Listener)
    requires LinkOk(lk, cs) && l in cs.listeners && (l.protocol.TCP? || l.protocol.UDP?)
    ensures |AttachedTo(cs.routes, l.name)| == 1
  {
    hide Indexes, NoDanglingReference, RouteFormOk, TlsRulesOk, AttachedTo;
    assert L4ListenerOk(l, AttachedTo(cs.routes, l.name));
  }

  /** A TLS passthrough listener inspects the server name. Its chains are those of the attached routes: the chain of a
      route serves the route's normalised server names and goes to the route's upstream, without terminating TLS. */
  lemma ServedPassthrough(env: Env, lk: Linked, cs: ConfigSet, m: Meaning, l: Config.Listener, r: Config.Route)
    returns (c: nat)
    requires Serves(env, lk, cs, m) && l in cs.listeners && l.protocol.TLS? && Attached(cs, l, r)
    ensures Names.Listener(l.name) in m.listeners && At(m, l).listenerFilters == [TlsInspector]
    ensures c < |At(m, l).chains| && PassesTo(At(m, l).chains[c], r)
  {
    hide Serves, RouteConfigOf, ForwardsOf, Specs, AttachedTo, SpecOf;
    IsServed(env, lk, cs, m, l);
    AttachedIff(cs.routes, l.name, r);
    ForwardsMatchAttached(cs, l, r);
    c := SpecPresent(ForwardsOf(cs, l), r);
    PassthroughMeans(SpecOf(r), [RouteConfigOf(env, lk, cs, l)]);
    SpecPasses(r, [RouteConfigOf(env, lk, cs, l)]);
  }

  /** Conversely every chain is that of an attached route. */
  lemma ServedPassthroughOnly(env: Env, lk: Linked, cs: ConfigSet, m: Meaning, l: Config.Listener, c: nat)
    returns (r: Config.Route)
    requires Serves(env, lk, cs, m) && l in cs.listeners && l.protocol.TLS?
    requires Names.Listener(l.name) in m.listeners && c < |At(m, l).chains|
    ensures Attached(cs, l, r) && PassesTo(At(m, l).chains[c], r)
  {
    hide Serves, RouteConfigOf, ForwardsOf, Specs, AttachedTo, SpecOf;
    IsServed(env, lk, cs, m, l);
    SpecsAre(ForwardsOf(cs, l), c);
    r := Specs(ForwardsOf(cs, l))[c].route;
    ForwardsMatchAttached(cs, l, r);
    AttachedIff(cs.routes, l.name, r);
    PassthroughMeans(SpecOf(r), [RouteConfigOf(env, lk, cs, l)]);
    SpecPasses(r, [RouteConfigOf(env, lk, cs, l)]);
  }

  /** The chain passes the route's server names on to its upstream. */
  ghost predicate PassesTo(chain: ChainMeaning, r: Config.Route) {
    && r.forward.Some? && chain.tls.None? && chain.filters == [TcpProxy(Names.Cluster(r.forward.value.upstream))]
    && multiset(chain.serverNames) == multiset(Norms(r.forward.value.sniHosts))
  }

  lemma PassthroughMeans(spec: ChainSpec, routes: seq<RouteConfig>)
    ensures DirectChain(routes, PassthroughChain(spec))
            == ChainMeaning(spec.hosts, None, [TcpProxy(ClusterFor(spec.route))])
  {
    assert DirectChain(routes, PassthroughChain(spec)).filters == [TcpProxy(ClusterFor(spec.route))];
  }

  lemma SpecPasses(r: Config.Route, routes: seq<RouteConfig>)
    requires r.IsForward()
    ensures SpecOf(r).route == r
    ensures PassesTo(ChainMeaning(SpecOf(r).hosts, None, [TcpProxy(ClusterFor(r))]), r)
  {
    hide Sorting.Sort;
    Sorting.SortPermutes(Norms(SniHosts(r)), Le);
  }

  // Upstreams

  /** The cluster of an upstream holds the upstream's own endpoints, fixed, or its DNS name, resolved strictly or
      logically as configured. */
  lemma ServedUpstream(env: Env, lk: Linked, cs: ConfigSet, m: Meaning, u: Upstream)
    requires Serves(env, lk, cs, m) && u in cs.upstreams
    ensures Names.Cluster(u.name) in m.clusters && !u.source.KubernetesService?
    ensures u.source.Endpoints? ==>
      m.clusters[Names.Cluster(u.name)]
      == FixedEndpoints(Some(LoadAssignment(Names.Cluster(u.name), u.source.endpoints)))
    ensures u.source.Dns? ==>
      var host := Endpoint(u.source.hostname, u.source.port, None);
      m.clusters[Names.Cluster(u.name)]
      == Discovered(if u.source.strict then StrictDns else LogicalDns,
                    Some(LoadAssignment(Names.Cluster(u.name), [host])))
  {
    hide ListenerMeans;
  }
}
