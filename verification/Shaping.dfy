/** Stage F5 on values: what each delivery mode makes of a listener and of a cluster. */
module Shaping {
  import opened Text
  import opened Envoy
  import Names

  function FindSecret(secrets: seq<Secret>, name: string): (r: Option<Secret>)
    ensures r.Some? ==> r.value in secrets && r.value.name == name
    ensures r.None? ==> forall s :: s in secrets ==> s.name != name
  {
    if secrets == [] then None
    else if secrets[0].name == name then Some(secrets[0])
    else FindSecret(secrets[1..], name)
  }

  function FindRoute(routes: seq<RouteConfig>, name: string): (r: Option<RouteConfig>)
    ensures r.Some? ==> r.value in routes && r.value.name == name
    ensures r.None? ==> forall rc :: rc in routes ==> rc.name != name
  {
    if routes == [] then None
    else if routes[0].name == name then Some(routes[0])
    else FindRoute(routes[1..], name)
  }

  /** The number of TLS chains among the first i: the certificate index of chain i. */
  function Ordinal(chains: seq<ChainView>, i: nat): nat
    requires i <= |chains|
  {
    if i == 0 then 0 else Ordinal(chains, i - 1) + if chains[i - 1].tls.Some? then 1 else 0
  }

  lemma OrdinalZero(chains: seq<ChainView>)
    ensures Ordinal(chains, 0) == 0
  {
  }

  lemma OrdinalStep(chains: seq<ChainView>, i: nat)
    requires i < |chains|
    ensures Ordinal(chains, i + 1) == Ordinal(chains, i) + if chains[i].tls.Some? then 1 else 0
  {
  }

  function CertSecret(secrets: seq<Secret>, owner: string, k: nat): Option<Secret> {
    FindSecret(secrets, Names.Secret(owner, k))
  }

  /** The listener's client CA, when the work set holds one of the right type. */
  function CaSecret(secrets: seq<Secret>, owner: string): Option<ValidationContext> {
    var s := FindSecret(secrets, Names.ClientCa(owner));
    if s.Some? && s.value.content.CaValidation? then Some(s.value.content.ctx) else None
  }

  // xDS shape

  function SdsTls(owner: string, k: nat, secrets: seq<Secret>, t: TlsContext): TlsContext {
    if CertSecret(secrets, owner, k).None? then t
    else t.(certs := [], certSds := [Names.Secret(owner, k)],
            validation := if t.validation.InlineValidation? && CaSecret(secrets, owner).Some?
                          then SdsValidation(Names.ClientCa(owner)) else t.validation)
  }

  function SdsChain(owner: string, k: nat, secrets: seq<Secret>, c: ChainView): ChainView {
    if c.tls.None? then c else c.(tls := Some(SdsTls(owner, k, secrets, c.tls.value)))
  }

  ghost predicate SdsChainOk(owner: string, k: nat, secrets: seq<Secret>, c: ChainView) {
    c.tls.Some? ==>
      && CertSecret(secrets, owner, k).Some?
      && (c.tls.value.validation.InlineValidation? ==> CaSecret(secrets, owner).Some?)
  }

  function SdsChainAt(owner: string, secrets: seq<Secret>, chains: seq<ChainView>, i: nat): ChainView
    requires i < |chains|
  {
    SdsChain(owner, Ordinal(chains, i), secrets, chains[i])
  }

  lemma SdsKeepsRest(owner: string, secrets: seq<Secret>, chains: seq<ChainView>, i: nat)
    requires i < |chains|
    ensures SdsChainAt(owner, secrets, chains, i).serverNames == chains[i].serverNames
    ensures SdsChainAt(owner, secrets, chains, i).filters == chains[i].filters
  {
  }

  ghost predicate SdsOkAt(owner: string, secrets: seq<Secret>, chains: seq<ChainView>, i: nat)
    requires i < |chains|
  {
    SdsChainOk(owner, Ordinal(chains, i), secrets, chains[i])
  }

  ghost predicate AllSdsOk(owner: string, secrets: seq<Secret>, chains: seq<ChainView>, n: nat)
    requires n <= |chains|
  {
    forall i :: 0 <= i < n ==> SdsOkAt(owner, secrets, chains, i)
  }

  function SdsListener(owner: string, secrets: seq<Secret>, v: ListenerView): ListenerView {
    v.(chains := seq(|v.chains|, i requires 0 <= i < |v.chains| => SdsChainAt(owner, secrets, v.chains, i)))
  }

  // Static shape

  function StaticTls(owner: string, k: nat, secrets: seq<Secret>, t: TlsContext): TlsContext {
    var s := CertSecret(secrets, owner, k);
    if s.None? || !s.value.content.TlsCertificate? then t
    else t.(certs := [s.value.content.cert],
            validation := if t.validation.InlineValidation? && CaSecret(secrets, owner).Some?
                          then InlineValidation(CaSecret(secrets, owner).value) else t.validation)
  }

  ghost predicate StaticTlsOk(owner: string, k: nat, secrets: seq<Secret>, c: ChainView) {
    c.tls.Some? ==>
      && CertSecret(secrets, owner, k).Some? && CertSecret(secrets, owner, k).value.content.TlsCertificate?
      && (c.tls.value.validation.InlineValidation? ==> CaSecret(secrets, owner).Some?)
  }

  ghost predicate StaticOkAt(owner: string, secrets: seq<Secret>, chains: seq<ChainView>, i: nat)
    requires i < |chains|
  {
    StaticTlsOk(owner, Ordinal(chains, i), secrets, chains[i])
  }

  ghost predicate AllStaticOk(owner: string, secrets: seq<Secret>, chains: seq<ChainView>, n: nat)
    requires n <= |chains|
  {
    forall i :: 0 <= i < n ==> StaticOkAt(owner, secrets, chains, i)
  }

  /** The static transport socket of chain i. */
  function StaticSocket(owner: string, secrets: seq<Secret>, chains: seq<ChainView>, i: nat): Option<TlsContext>
    requires i < |chains|
  {
    if chains[i].tls.None? then None else Some(StaticTls(owner, Ordinal(chains, i), secrets, chains[i].tls.value))
  }

  /** A filter is left alone, or is a connection manager whose route reference is now the route itself. */
  ghost predicate Inlined(before: FilterConfig, after: FilterConfig, routes: seq<RouteConfig>, inlined: set<string>) {
    || after == before
    || (&& before.HcmFilter? && before.hcm.routes.Rds? && before.hcm.routes.name in inlined
        && FindRoute(routes, before.hcm.routes.name).Some?
        && after == HcmFilter(before.hcm.(routes := InlineRoutes(FindRoute(routes, before.hcm.routes.name).value))))
  }

  ghost predicate StaticChain(before: ChainView, after: ChainView, routes: seq<RouteConfig>, inlined: set<string>) {
    && after.serverNames == before.serverNames && |after.filters| == |before.filters|
    && forall j :: 0 <= j < |before.filters| ==> Inlined(before.filters[j], after.filters[j], routes, inlined)
  }

  /** after is before with its certificates and some of its route references written inline. */
  ghost predicate StaticListener(owner: string, secrets: seq<Secret>, routes: seq<RouteConfig>, inlined: set<string>,
                                 before: ListenerView, after: ListenerView) {
    && after.name == before.name && after.bound == before.bound && after.listenerFilters == before.listenerFilters
    && |after.chains| == |before.chains|
    && forall i :: 0 <= i < |before.chains| ==>
         StaticChain(before.chains[i], after.chains[i], routes, inlined)
         && after.chains[i].tls == StaticSocket(owner, secrets, before.chains, i)
  }

  // Orphans

  /** Chain i of the listener uses the secret n. */
  ghost predicate ChainUses(owner: string, secrets: seq<Secret>, chains: seq<ChainView>, i: nat, n: string)
    requires i < |chains|
  {
    && chains[i].tls.Some? && CertSecret(secrets, owner, Ordinal(chains, i)).Some?
    && (|| n == Names.Secret(owner, Ordinal(chains, i))
        || (&& n == Names.ClientCa(owner) && chains[i].tls.value.validation.InlineValidation?
            && CaSecret(secrets, owner).Some?))
  }

  ghost predicate NoOrphan(owner: string, compiled: set<string>, used: set<string>) {
    forall n :: n in compiled && Names.BelongsTo(n, owner) ==> n in used
  }

  ghost predicate AllUsed(owner: string, secrets: seq<Secret>, compiled: set<string>, chains: seq<ChainView>) {
    forall n :: n in compiled && Names.BelongsTo(n, owner) ==>
      exists i :: 0 <= i < |chains| && ChainUses(owner, secrets, chains, i, n)
  }

  // Connection manager

  function FirstHcmIn(filters: seq<FilterConfig>): (r: Option<Hcm>)
    ensures r.None? ==> forall f :: f in filters ==> !f.HcmFilter?
  {
    if filters == [] then None
    else if filters[0].HcmFilter? then Some(filters[0].hcm)
    else FirstHcmIn(filters[1..])
  }

  function FirstHcm(chains: seq<ChainView>): (r: Option<Hcm>)
    ensures r.None? ==> forall c :: c in chains ==> forall f :: f in c.filters ==> !f.HcmFilter?
  {
    if chains == [] then None
    else if FirstHcmIn(chains[0].filters).Some? then FirstHcmIn(chains[0].filters)
    else FirstHcm(chains[1..])
  }

  /** The route the static shape must inline exists. */
  ghost predicate RouteFound(routes: seq<RouteConfig>, chains: seq<ChainView>) {
    var h := FirstHcm(chains);
    h.Some? && h.value.routes.Rds? ==> FindRoute(routes, h.value.routes.name).Some?
  }

  // Clusters

  /** Does the xDS shape move this cluster's endpoints out? */
  predicate Extracts(c: ClusterView) {
    c.TypeReadsStatic() && c.assignment.Some?
  }

  function EdsCluster(c: ClusterView): ClusterView {
    if Extracts(c) then c.(discovery := Eds, assignment := None, edsConfig := true) else c
  }
}
