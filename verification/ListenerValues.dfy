/** The listeners stage F3 produces, as values, and what the link checks make of them. */
module ListenerValues {
  import opened Text
  import opened Config
  import opened Link
  import opened LinkL4
  import Envoy
  import opened Policies
  import opened BuildValues
  import Names
  import Sorting

  // TLS termination

  function TlsOf(tls: ListenerTls, c: CertificateEntry): Envoy.TlsContext {
    Envoy.TlsContext(
      [Envoy.Certificate(c.certFile, c.keyFile)], [],
      if tls.clientCa == "" then Envoy.NoValidation
      else Envoy.InlineValidation(Envoy.ValidationContext(Some(tls.clientCa))),
      tls.clientCa != "")
  }

  function ServerNames(env: Env, certs: seq<CertificateEntry>): seq<string> {
    if certs == [] then []
    else
      ServerNames(env, certs[..|certs| - 1]) + CertNames(env, certs[|certs| - 1])
  }

  /** Every certificate yields server names and no name is claimed twice. */
  ghost predicate CertificatesOk(env: Env, certs: seq<CertificateEntry>) {
    && (forall c :: c in certs ==> env.extract(c.certFile).Some? && env.extract(c.certFile).value != [])
    && Sorting.Distinct(ServerNames(env, certs))
  }

  function HcmFilterOf(env: Env, lk: Linked, cs: ConfigSet, l: Listener): Envoy.FilterConfig {
    Envoy.HcmFilter(HcmOf(env, lk, cs, l))
  }

  function HttpsChain(env: Env, tls: ListenerTls, c: CertificateEntry, hcm: Envoy.FilterConfig): Envoy.ChainView {
    Envoy.ChainView(CertNames(env, c), Some(TlsOf(tls, c)), [hcm])
  }

  // L4

  /** The forward routes attached to a listener, in list order. */
  function ForwardRoutes(rs: seq<Route>, listener: string): (out: seq<Route>)
    ensures forall r :: r in out <==> r in rs && r.IsForward() && AttachesTo(r, listener)
  {
    if rs == [] then []
    else
      var r := rs[|rs| - 1];
      var rest := ForwardRoutes(rs[..|rs| - 1], listener);
      assert rs == rs[..|rs| - 1] + [r];
      if r.IsForward() && AttachesTo(r, listener) then rest + [r] else rest
  }

  function ForwardsOf(cs: ConfigSet, l: Listener): seq<Route> {
    ForwardRoutes(SortedRoutes(cs), l.name)
  }

  datatype ChainSpec = ChainSpec(route: Route, hosts: seq<string>)

  function SpecOf(r: Route): ChainSpec {
    ChainSpec(r, Sorting.SortStrings(Norms(SniHosts(r))))
  }

  predicate SpecLe(x: ChainSpec, y: ChainSpec) {
    var left, right := Join(x.hosts, "\0"), Join(y.hosts, "\0");
    if left != right then Le(left, right) else Le(x.route.name, y.route.name)
  }

  function Specs(rs: seq<Route>): seq<ChainSpec> {
    Sorting.Sort(seq(|rs|, i requires 0 <= i < |rs| => SpecOf(rs[i])), SpecLe)
  }

  function ClusterFor(r: Route): string {
    if r.forward.Some? then Names.Cluster(r.forward.value.upstream) else ""
  }

  function PassthroughChain(spec: ChainSpec): Envoy.ChainView {
    Envoy.ChainView(spec.hosts, None, [Envoy.TcpProxy(ClusterFor(spec.route))])
  }

  // A listener

  /** A listener whose build does not index an empty route list or a missing TLS section. */
  ghost predicate Buildable(cs: ConfigSet, l: Listener) {
    match l.protocol
    case TCP => ForwardsOf(cs, l) != []
    case UDP => ForwardsOf(cs, l) != []
    case HTTPS => l.tls.Some?
    case _ => true
  }

  /** The configured address; only a UDP listener is bound to a datagram socket. */
  function BoundTo(l: Listener): Envoy.SocketAddress {
    Envoy.SocketAddress(l.address, l.port, l.protocol.UDP?)
  }

  ghost function ViewOf(env: Env, lk: Linked, cs: ConfigSet, l: Listener): Envoy.ListenerView
    requires Buildable(cs, l)
  {
    var name := Names.Listener(l.name);
    match l.protocol
    case HTTP => Envoy.ListenerView(name, BoundTo(l), [Envoy.ChainView([], None, [HcmFilterOf(env, lk, cs, l)])], [])
    case HTTPS =>
      var certs := l.tls.value.certificates;
      var hcm := HcmFilterOf(env, lk, cs, l);
      Envoy.ListenerView(
        name, BoundTo(l), seq(|certs|, i requires 0 <= i < |certs| => HttpsChain(env, l.tls.value, certs[i], hcm)),
        [Envoy.TlsInspector])
    case TCP =>
      Envoy.ListenerView(
        name, BoundTo(l), [Envoy.ChainView([], None, [Envoy.TcpProxy(ClusterFor(ForwardsOf(cs, l)[0]))])], [])
    case TLS =>
      var specs := Specs(ForwardsOf(cs, l));
      Envoy.ListenerView(
        name, BoundTo(l), seq(|specs|, i requires 0 <= i < |specs| => PassthroughChain(specs[i])), [Envoy.TlsInspector])
    case UDP => Envoy.ListenerView(name, BoundTo(l), [], [Envoy.UdpProxy(ClusterFor(ForwardsOf(cs, l)[0]))])
  }

  /** An HTTPS listener without certificates has no chain, and is silently left out of the result. */
  predicate Produced(l: Listener) {
    !(l.protocol.HTTPS? && l.tls.Some? && l.tls.value.certificates == [])
  }

  // What the link checks give

  lemma ForwardsMatchAttached(cs: ConfigSet, l: Listener, r: Route)
    ensures r in ForwardsOf(cs, l) <==> r in AttachedTo(cs.routes, l.name)
  {
    Sorting.SortPermutes(cs.routes, RouteLe);
    AttachedIff(cs.routes, l.name, r);
  }

  lemma {:induction false} ForwardsDistinct(rs: seq<Route>, listener: string)
    requires Sorting.Distinct(rs)
    ensures Sorting.Distinct(ForwardRoutes(rs, listener))
  {
    if rs != [] {
      var r, rest := rs[|rs| - 1], rs[..|rs| - 1];
      assert Sorting.Distinct(rest);
      ForwardsDistinct(rest, listener);
      assert r !in rest;
    }
  }

  /** TCP and UDP: exactly the one attached route. */
  lemma OneForward(cs: ConfigSet, l: Listener)
    requires WellFormed(cs) && |AttachedTo(cs.routes, l.name)| == 1
    ensures ForwardsOf(cs, l) == [AttachedTo(cs.routes, l.name)[0]]
  {
    hide ForwardsOf, AttachedTo, WellFormed, Sorting.Distinct;
    var r := AttachedTo(cs.routes, l.name)[0];
    ForwardsMatchAttached(cs, l, r);
    var fs := ForwardsOf(cs, l);
    ForwardsOnce(cs, l);
    forall i | 0 <= i < |fs| ensures fs[i] == r {
      assert fs[i] in fs;
      ForwardsMatchAttached(cs, l, fs[i]);
    }
    assert fs != [] && fs[0] == fs[|fs| - 1];
    DistinctEnds(fs);
  }

  lemma DistinctEnds(fs: seq<Route>)
    requires Sorting.Distinct(fs) && fs != [] && fs[0] == fs[|fs| - 1]
    ensures |fs| == 1
  {
  }

  lemma ForwardsOnce(cs: ConfigSet, l: Listener)
    requires WellFormed(cs)
    ensures Sorting.Distinct(ForwardsOf(cs, l))
  {
    hide Sorting.Sort;
    assert Sorting.Distinct(cs.routes);
    Sorting.SortKeepsDistinct(cs.routes, RouteLe);
    ForwardsDistinct(SortedRoutes(cs), l.name);
  }

  /** After the link checks every listener can be built. */
  lemma LinkedIsBuildable(cs: ConfigSet, l: Listener)
    requires WellFormed(cs) && L4ConstraintsOk(cs) && TlsRulesOk(cs) && l in cs.listeners
    ensures Buildable(cs, l)
  {
    assert L4ListenerOk(l, AttachedTo(cs.routes, l.name));
    if l.protocol.TCP? || l.protocol.UDP? {
      OneForward(cs, l);
    }
  }

  lemma SpecsAre(rs: seq<Route>, i: nat)
    requires i < |Specs(rs)|
    ensures Specs(rs)[i].route in rs && Specs(rs)[i] == SpecOf(Specs(rs)[i].route)
  {
    var all := seq(|rs|, j requires 0 <= j < |rs| => SpecOf(rs[j]));
    Sorting.SortPermutes(all, SpecLe);
    assert Specs(rs)[i] in all;
    var j :| 0 <= j < |all| && all[j] == Specs(rs)[i];
  }

  lemma SpecPresent(rs: seq<Route>, r: Route) returns (i: nat)
    requires r in rs
    ensures i < |Specs(rs)| && Specs(rs)[i] == SpecOf(r)
  {
    hide SpecOf, Sorting.Sort;
    var all := seq(|rs|, j requires 0 <= j < |rs| => SpecOf(rs[j]));
    var k :| 0 <= k < |rs| && rs[k] == r;
    assert all[k] == SpecOf(r);
    Sorting.SortPermutes(all, SpecLe);
    assert SpecOf(r) in Specs(rs);
    i :| 0 <= i < |Specs(rs)| && Specs(rs)[i] == SpecOf(r);
  }

  lemma SpecHosts(r: Route, n: string)
    ensures n in SpecOf(r).hosts <==> n in Norms(SniHosts(r))
  {
    Sorting.SortPermutes(Norms(SniHosts(r)), Le);
  }

  /** On an accepted TLS passthrough listener a normalised server name selects at most one chain. */
  lemma SniSelectsOneChain(env: Env, lk: Linked, cs: ConfigSet, l: Listener, i: nat, j: nat, n: string)
    requires WellFormed(cs) && L4ConstraintsOk(cs) && l in cs.listeners && l.protocol.TLS?
    requires i < |ViewOf(env, lk, cs, l).chains| && j < |ViewOf(env, lk, cs, l).chains|
    requires n in ViewOf(env, lk, cs, l).chains[i].serverNames && n in ViewOf(env, lk, cs, l).chains[j].serverNames
    ensures ViewOf(env, lk, cs, l).chains[i] == ViewOf(env, lk, cs, l).chains[j]
    ensures exists r :: r in cs.routes && r.IsForward() && AttachesTo(r, l.name) && n in Norms(SniHosts(r))
              && ViewOf(env, lk, cs, l).chains[i].filters == [Envoy.TcpProxy(Names.Cluster(r.forward.value.upstream))]
  {
    var fs := ForwardsOf(cs, l);
    var at := AttachedTo(cs.routes, l.name);
    assert SniUnambiguous(at) by { assert L4ListenerOk(l, at); }
    SpecsAre(fs, i);
    SpecsAre(fs, j);
    var a, b := Specs(fs)[i].route, Specs(fs)[j].route;
    SpecHosts(a, n);
    SpecHosts(b, n);
    ForwardsMatchAttached(cs, l, a);
    ForwardsMatchAttached(cs, l, b);
    SniBelongsToOne(at, a, b, n);
    AttachedIff(cs.routes, l.name, a);
  }

  /** Every declared server name is served: its route's chain exists. */
  lemma DeclaredSniHasChain(env: Env, lk: Linked, cs: ConfigSet, l: Listener, r: Route, n: string) returns (i: nat)
    requires l.protocol.TLS? && r in cs.routes && r.IsForward() && AttachesTo(r, l.name) && n in Norms(SniHosts(r))
    ensures i < |ViewOf(env, lk, cs, l).chains|
    ensures n in ViewOf(env, lk, cs, l).chains[i].serverNames
    ensures ViewOf(env, lk, cs, l).chains[i].filters == [Envoy.TcpProxy(Names.Cluster(r.forward.value.upstream))]
  {
    hide Specs, ForwardsOf;
    AttachedIff(cs.routes, l.name, r);
    ForwardsMatchAttached(cs, l, r);
    i := SpecPresent(ForwardsOf(cs, l), r);
    SpecHosts(r, n);
  }

  // HTTPS

  function CertNames(env: Env, c: CertificateEntry): seq<string> {
    if env.extract(c.certFile).Some? then env.extract(c.certFile).value else []
  }

  lemma {:induction false} NameListed(env: Env, certs: seq<CertificateEntry>, i: nat, n: string)
    requires i < |certs| && n in CertNames(env, certs[i])
    ensures n in ServerNames(env, certs)
  {
    if i < |certs| - 1 {
      NameListed(env, certs[..|certs| - 1], i, n);
    }
  }

  lemma {:induction false} NameHasOneCertificate(env: Env, certs: seq<CertificateEntry>, i: nat, j: nat, n: string)
    requires Sorting.Distinct(ServerNames(env, certs)) && i < |certs| && j < |certs|
    requires n in CertNames(env, certs[i]) && n in CertNames(env, certs[j])
    ensures i == j
  {
    var last, init := |certs| - 1, certs[..|certs| - 1];
    DistinctAppend(ServerNames(env, init), CertNames(env, certs[last]));
    if i < last {
      NameListed(env, init, i, n);
    }
    if j < last {
      NameListed(env, init, j, n);
    }
    if i < last && j < last {
      NameHasOneCertificate(env, init, i, j, n);
    }
  }

  /** On a built HTTPS listener a server name selects at most one chain, the one whose certificate names it. */
  lemma HttpsNameSelectsOneChain(env: Env, lk: Linked, cs: ConfigSet, l: Listener, i: nat, j: nat, n: string)
    requires l.protocol.HTTPS? && l.tls.Some? && CertificatesOk(env, l.tls.value.certificates)
    requires i < |ViewOf(env, lk, cs, l).chains| && j < |ViewOf(env, lk, cs, l).chains|
    requires n in ViewOf(env, lk, cs, l).chains[i].serverNames && n in ViewOf(env, lk, cs, l).chains[j].serverNames
    ensures i == j && i < |l.tls.value.certificates|
    ensures var c := l.tls.value.certificates[i];
            && env.extract(c.certFile).Some? && n in env.extract(c.certFile).value
            && ViewOf(env, lk, cs, l).chains[i].tls.value.certs == [Envoy.Certificate(c.certFile, c.keyFile)]
  {
    hide HcmFilterOf, CertificatesOk;
    var certs := l.tls.value.certificates;
    assert n in CertNames(env, certs[i]) && n in CertNames(env, certs[j]);
    assert Sorting.Distinct(ServerNames(env, certs)) by { NamesDistinct(env, certs); }
    NameHasOneCertificate(env, certs, i, j, n);
  }

  lemma NamesDistinct(env: Env, certs: seq<CertificateEntry>)
    requires CertificatesOk(env, certs)
    ensures Sorting.Distinct(ServerNames(env, certs))
  {
  }

  /** Every name of a certificate is served, under that certificate. */
  lemma CertificateNameHasChain(env: Env, lk: Linked, cs: ConfigSet, l: Listener, i: nat, n: string)
    requires l.protocol.HTTPS? && l.tls.Some? && i < |l.tls.value.certificates|
    requires n in CertNames(env, l.tls.value.certificates[i])
    ensures i < |ViewOf(env, lk, cs, l).chains| && n in ViewOf(env, lk, cs, l).chains[i].serverNames
    ensures ViewOf(env, lk, cs, l).chains[i].tls == Some(TlsOf(l.tls.value, l.tls.value.certificates[i]))
  {
    hide HcmFilterOf, TlsOf;
  }
}
