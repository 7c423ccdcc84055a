/** The protocol objects after structural validation: one-of fields are sum types, object
    names are unique per kind and contain no '/'. */
module Config {
  import opened Text
  import Names
  import Ip = IpAccess

  datatype Protocol = HTTP | HTTPS | TCP | TLS | UDP
  {
    predicate IsHttp() { HTTP? || HTTPS? }
  }

  datatype ExtAuthService =
    | NoService
    | Grpc(host: string, port: nat)
    | Http(scheme: string, host: string, port: nat, pathPrefix: string, caFile: string, insecure: bool)

  datatype ExtAuthPolicy = ExtAuthPolicy(service: ExtAuthService, failOpen: bool, disabled: bool)

  datatype PolicySpec =
    | HeaderModifier(ops: string)
    | Cors(cors: string)
    | RateLimit(limit: string)
    | Jwt(requirement: string)
    | ExtAuth(auth: ExtAuthPolicy)
    | IpAccess(ip: Ip.IpPolicy)
    | BasicAuth(users: string)

  datatype Attachment = Ref(name: string) | Inline(spec: PolicySpec)

  datatype Policy = Policy(name: string, spec: PolicySpec)

  datatype CertificateEntry = CertificateEntry(certFile: string, keyFile: string)

  datatype ListenerTls = ListenerTls(certificates: seq<CertificateEntry>, clientCa: string)

  datatype Listener = Listener(
    name: string, address: string, port: nat, protocol: Protocol,
    tls: Option<ListenerTls>, hasHttp: bool, policies: seq<Attachment>)

  datatype Backend = Backend(upstream: string, weight: Option<nat>)

  datatype Action = Forwarding(backends: seq<Backend>) | Redirect(code: nat) | DirectResponse(status: nat)

  datatype Rule = Rule(match_: string, action: Action, policies: seq<Attachment>)

  datatype Forward = Forward(upstream: string, sniHosts: seq<string>)

  datatype Route = Route(
    name: string, listeners: seq<string>, hostnames: seq<string>,
    policies: seq<Attachment>, rules: seq<Rule>, forward: Option<Forward>)
  {
    /** A well-formed L4 route. */
    predicate IsForward() { forward.Some? && rules == [] }
  }

  datatype Endpoint = Endpoint(address: string, port: nat, weight: Option<nat>)

  datatype EndpointSource =
    | Endpoints(endpoints: seq<Endpoint>)
    | Dns(hostname: string, port: nat, strict: bool)
    | KubernetesService(service: string)

  datatype Upstream = Upstream(name: string, source: EndpointSource)

  datatype ConfigSet = ConfigSet(
    gatewayPolicies: seq<Attachment>, listeners: seq<Listener>, routes: seq<Route>,
    upstreams: seq<Upstream>, policies: seq<Policy>)

  /** What structural validation and the loader guarantee before the compiler runs. */
  ghost predicate WellFormed(cs: ConfigSet) {
    && (forall i, j :: 0 <= i < j < |cs.listeners| ==> cs.listeners[i].name != cs.listeners[j].name)
    && (forall i, j :: 0 <= i < j < |cs.routes| ==> cs.routes[i].name != cs.routes[j].name)
    && (forall i, j :: 0 <= i < j < |cs.upstreams| ==> cs.upstreams[i].name != cs.upstreams[j].name)
    && (forall i, j :: 0 <= i < j < |cs.policies| ==> cs.policies[i].name != cs.policies[j].name)
    && (forall l :: l in cs.listeners ==> Names.Simple(l.name))
    && (forall u :: u in cs.upstreams ==> u.source.Endpoints? ==> u.source.endpoints != [])
  }

  predicate AttachesTo(r: Route, listener: string) {
    listener in r.listeners
  }
}
