/** Envoy resources. Messages that are only copied are values; the messages that the
    compiler rewrites in place, and that may be shared by pointer, are objects. */
module Envoy {
  import opened Text
  import Config
  import Ip = IpAccess

  datatype Certificate = Certificate(chainFile: string, keyFile: string)

  datatype ValidationContext = ValidationContext(trustedCa: Option<string>)

  datatype Validation =
    | NoValidation
    | InlineValidation(ctx: ValidationContext)
    | SdsValidation(secret: string)

  datatype TlsContext = TlsContext(
    certs: seq<Certificate>, certSds: seq<string>, validation: Validation, requireClientCert: bool)

  datatype PerRoute = AuthDisabled | AuthEnabled | Rbac(principal: Ip.Principal) | OtherPerRoute(config: string)

  datatype RouteAction =
    | ToCluster(cluster: string)
    | ToWeighted(clusters: seq<(string, nat)>)
    | Redirecting(code: nat)
    | Responding(status: nat)
    | NoAction
  {
    /** Every cluster the action can send to. */
    function Clusters(): seq<string> {
      match this
      case ToCluster(c) => if c == "" then [] else [c]
      case ToWeighted(cs) => seq(|cs|, i requires 0 <= i < |cs| => cs[i].0)
      case _ => []
    }
  }

  datatype Route = Route(match_: string, action: RouteAction, perFilter: map<string, PerRoute>)

  datatype VirtualHost = VirtualHost(name: string, domains: seq<string>, routes: seq<Route>)

  datatype RouteConfig = RouteConfig(name: string, vhosts: seq<VirtualHost>)

  datatype RouteSource = NoRoutes | Rds(name: string) | InlineRoutes(config: RouteConfig)

  /** A gRPC service is named by its cluster alone; an HTTP service also has a URI and a path prefix. */
  datatype AuthTarget = GrpcTarget | HttpTarget(scheme: string, host: string, port: nat, pathPrefix: string)

  datatype HttpFilter =
    | PlainFilter(name: string)
    | ExtAuthz(cluster: string, target: AuthTarget, failOpen: bool)

  datatype Hcm = Hcm(statPrefix: string, routes: RouteSource, httpFilters: seq<HttpFilter>)

  datatype FilterConfig = HcmFilter(hcm: Hcm) | TcpProxy(cluster: string) | OtherFilter(config: string)

  datatype ListenerFilter = TlsInspector | UdpProxy(cluster: string) | OtherListenerFilter(config: string)

  datatype LoadAssignment = LoadAssignment(clusterName: string, endpoints: seq<Config.Endpoint>)

  datatype Discovery = Static | Eds | StrictDns | LogicalDns | CustomType(extension: string)

  datatype SecretContent =
    | TlsCertificate(cert: Certificate)
    | CaValidation(ctx: ValidationContext)
    | OtherSecret(config: string)

  datatype Secret = Secret(name: string, content: SecretContent)

  /** Where a listener is bound. */
  datatype SocketAddress = SocketAddress(address: string, port: nat, udp: bool)

  // Objects rewritten in place

  class Filter {
    var config: FilterConfig

    constructor (config: FilterConfig)
      ensures this.config == config
    {
      this.config := config;
    }
  }

  class FilterChain {
    const serverNames: seq<string>
    const filters: seq<Filter>
    var tls: Option<TlsContext>

    constructor (serverNames: seq<string>, tls: Option<TlsContext>, filters: seq<Filter>)
      ensures this.serverNames == serverNames && this.tls == tls && this.filters == filters
    {
      this.serverNames, this.tls, this.filters := serverNames, tls, filters;
    }
  }

  class Listener {
    const name: string
    const bound: SocketAddress
    const chains: seq<FilterChain>
    const listenerFilters: seq<ListenerFilter>

    constructor (name: string, bound: SocketAddress, chains: seq<FilterChain>, listenerFilters: seq<ListenerFilter>)
      ensures this.name == name && this.bound == bound
      ensures this.chains == chains && this.listenerFilters == listenerFilters
    {
      this.name, this.bound, this.chains, this.listenerFilters := name, bound, chains, listenerFilters;
    }
  }

  class Cluster {
    const name: string
    var discovery: Discovery
    var assignment: Option<LoadAssignment>
    var edsConfig: bool

    constructor (name: string, discovery: Discovery, assignment: Option<LoadAssignment>, edsConfig: bool)
      ensures this.name == name && this.discovery == discovery
      ensures this.assignment == assignment && this.edsConfig == edsConfig
    {
      this.name, this.discovery, this.assignment, this.edsConfig := name, discovery, assignment, edsConfig;
    }
  }

  // The values of those objects

  datatype ChainView = ChainView(serverNames: seq<string>, tls: Option<TlsContext>, filters: seq<FilterConfig>)

  datatype ListenerView = ListenerView(
    name: string, bound: SocketAddress, chains: seq<ChainView>, listenerFilters: seq<ListenerFilter>)

  datatype ClusterView = ClusterView(
    name: string, discovery: Discovery, assignment: Option<LoadAssignment>, edsConfig: bool)
  {
    /** The getter of an unset type field yields STATIC, so a custom cluster type does too. */
    predicate TypeReadsStatic() { discovery.Static? || discovery.CustomType? }
  }

  /** The chain's current contents are cv. */
  ghost predicate ShowsChain(c: FilterChain, cv: ChainView)
    reads c, c.filters
  {
    && cv.serverNames == c.serverNames && cv.tls == c.tls && |cv.filters| == |c.filters|
    && forall j :: 0 <= j < |c.filters| ==> cv.filters[j] == c.filters[j].config
  }

  ghost function FiltersOf(l: Listener): (fs: set<Filter>)
    ensures forall i, j :: 0 <= i < |l.chains| && 0 <= j < |l.chains[i].filters| ==> l.chains[i].filters[j] in fs
  {
    set i, j | 0 <= i < |l.chains| && 0 <= j < |l.chains[i].filters| :: l.chains[i].filters[j]
  }

  /** The listener's current contents are v. */
  ghost predicate Shows(l: Listener, v: ListenerView)
    reads l.chains, FiltersOf(l)
  {
    && v.name == l.name && v.bound == l.bound && v.listenerFilters == l.listenerFilters && |v.chains| == |l.chains|
    && forall i :: 0 <= i < |l.chains| ==> ShowsChain(l.chains[i], v.chains[i])
  }

  method ReadChain(c: FilterChain) returns (cv: ChainView)
    ensures ShowsChain(c, cv)
  {
    var fs := [];
    for j := 0 to |c.filters|
      invariant |fs| == j && forall k :: 0 <= k < j ==> fs[k] == c.filters[k].config
    {
      fs := fs + [c.filters[j].config];
    }
    cv := ChainView(c.serverNames, c.tls, fs);
  }

  method ReadListener(l: Listener) returns (v: ListenerView)
    ensures Shows(l, v)
  {
    var cs := [];
    for i := 0 to |l.chains|
      invariant |cs| == i && forall k :: 0 <= k < i ==> ShowsChain(l.chains[k], cs[k])
    {
      var cv := ReadChain(l.chains[i]);
      cs := cs + [cv];
    }
    v := ListenerView(l.name, l.bound, cs, l.listenerFilters);
  }

  lemma ShowsUnique(l: Listener, v: ListenerView, w: ListenerView)
    requires Shows(l, v) && Shows(l, w)
    ensures v == w
  {
    forall i | 0 <= i < |l.chains| ensures v.chains[i] == w.chains[i] {
      assert ShowsChain(l.chains[i], v.chains[i]) && ShowsChain(l.chains[i], w.chains[i]);
      assert v.chains[i].filters == w.chains[i].filters;
    }
    assert v.chains == w.chains;
  }

  /** The compiled resource set, keyed by resource name. */
  datatype IR = IR(
    listeners: map<string, ListenerView>, clusters: map<string, ClusterView>, routes: map<string, RouteConfig>,
    endpoints: map<string, LoadAssignment>, secrets: map<string, Secret>)
}
