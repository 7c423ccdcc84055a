/** The two shapes of a work set mean the same: following RDS, SDS and EDS references by name in the
    xDS resource set gives the listeners and clusters of the static one. */
module ModeEquivalence {
  import opened Text
  import opened Envoy
  import opened Shaping
  import opened Link
  import opened Materialize
  import opened WorkSet
  import opened Synthesis
  import opened CrossRefs
  import Names

  // What a resource set means to the data plane

  datatype ResolvedTls = ResolvedTls(certs: seq<Option<Certificate>>, validation: Validation, requireClientCert: bool)

  datatype ChainMeaning = ChainMeaning(serverNames: seq<string>, tls: Option<ResolvedTls>, filters: seq<FilterConfig>)

  datatype ListenerMeaning = ListenerMeaning(
    name: string, bound: SocketAddress, chains: seq<ChainMeaning>, listenerFilters: seq<ListenerFilter>)

  datatype ClusterMeaning =
    | FixedEndpoints(endpoints: Option<LoadAssignment>)
    | Discovered(discovery: Discovery, seeds: Option<LoadAssignment>)

  datatype Meaning = Meaning(listeners: map<string, ListenerMeaning>, clusters: map<string, ClusterMeaning>)

  function SecretCert(ir: IR, name: string): Option<Certificate> {
    if name in ir.secrets && ir.secrets[name].content.TlsCertificate? then Some(ir.secrets[name].content.cert) else None
  }

  function ResolveCerts(ir: IR, t: TlsContext): seq<Option<Certificate>> {
    seq(|t.certs|, i requires 0 <= i < |t.certs| => Some(t.certs[i]))
    + seq(|t.certSds|, i requires 0 <= i < |t.certSds| => SecretCert(ir, t.certSds[i]))
  }

  function ResolveValidation(ir: IR, v: Validation): Validation {
    if v.SdsValidation? && v.secret in ir.secrets && ir.secrets[v.secret].content.CaValidation?
    then InlineValidation(ir.secrets[v.secret].content.ctx) else v
  }

  function ResolveTls(ir: IR, t: TlsContext): ResolvedTls {
    ResolvedTls(ResolveCerts(ir, t), ResolveValidation(ir, t.validation), t.requireClientCert)
  }

  function ResolveFilter(ir: IR, f: FilterConfig): FilterConfig {
    if f.HcmFilter? && f.hcm.routes.Rds? && f.hcm.routes.name in ir.routes
    then HcmFilter(f.hcm.(routes := InlineRoutes(ir.routes[f.hcm.routes.name]))) else f
  }

  function ResolveChain(ir: IR, c: ChainView): ChainMeaning {
    ChainMeaning(c.serverNames, if c.tls.Some? then Some(ResolveTls(ir, c.tls.value)) else None,
                 seq(|c.filters|, i requires 0 <= i < |c.filters| => ResolveFilter(ir, c.filters[i])))
  }

  function ResolveListener(ir: IR, v: ListenerView): ListenerMeaning {
    ListenerMeaning(
      v.name, v.bound, seq(|v.chains|, i requires 0 <= i < |v.chains| => ResolveChain(ir, v.chains[i])),
      v.listenerFilters)
  }

  function ResolveCluster(ir: IR, c: ClusterView): ClusterMeaning {
    match c.discovery
    case Eds => FixedEndpoints(if c.name in ir.endpoints then Some(ir.endpoints[c.name]) else None)
    case Static => FixedEndpoints(c.assignment)
    case _ => Discovered(c.discovery, c.assignment)
  }

  function MeaningOf(ir: IR): Meaning {
    Meaning(map n | n in ir.listeners :: ResolveListener(ir, ir.listeners[n]),
            map n | n in ir.clusters :: ResolveCluster(ir, ir.clusters[n]))
  }

  // Work sets

  ghost predicate Unique<T>(s: seq<T>, name: T -> string) {
    forall i, j :: 0 <= i < |s| && 0 <= j < |s| && name(s[i]) == name(s[j]) ==> i == j
  }

  ghost predicate UniqueNames(w: WorkView) {
    && Unique(w.listeners, ListenerName) && Unique(w.routes, RouteName) && Unique(w.clusters, ClusterName)
    && Unique(w.endpoints, AssignmentName) && Unique(w.secrets, SecretName)
  }

  ghost predicate NoCertReference(v: ListenerView) {
    forall i :: 0 <= i < |v.chains| && v.chains[i].tls.Some? ==> v.chains[i].tls.value.certSds == []
  }

  /** A cluster whose endpoints move out must really be STATIC and name its assignment after itself. */
  ghost predicate MovesCleanly(c: ClusterView) {
    Extracts(c) ==> c.discovery.Static? && c.assignment.value.clusterName == c.name
  }

  /** The exact condition under which the two modes agree. */
  ghost predicate Clean(w: WorkView) {
    && (forall i :: 0 <= i < |w.listeners| && w.listeners[i].name in w.compiledListeners ==>
           NoCertReference(w.listeners[i]))
    && (forall i :: 0 <= i < |w.clusters| ==> MovesCleanly(w.clusters[i]))
  }

  /** Both materializations of one work set succeeded and the static one passed F6. */
  ghost predicate BothModes(w: WorkView, assignments: seq<LoadAssignment>, x: IR, shaped: seq<ListenerView>,
      inlined: set<string>, s: IR) {
    && UniqueNames(w)
    && XdsWorkOk(w) && XdsIR(w, assignments, x)
    && StaticWorkOk(w) && StaticIR(w, shaped, inlined, s) && Closed(s)
  }

  lemma LookupUnique<T>(m: map<string, T>, s: seq<T>, name: T -> string, skip: set<string>, x: T)
    requires Indexed(m, s, name, skip) && Unique(s, name) && x in s && name(x) !in skip
    ensures name(x) in m && m[name(x)] == x
  {
    var i :| 0 <= i < |s| && s[i] == x;
    assert name(s[i]) in m && m[name(x)] in s;
    var j :| 0 <= j < |s| && s[j] == m[name(x)];
  }

  lemma SameLookup<T>(m: map<string, T>, m': map<string, T>, s: seq<T>, name: T -> string, skip: set<string>, n: string)
    requires Indexed(m, s, name, {}) && Indexed(m', s, name, skip) && Unique(s, name) && n in m'
    ensures n in m && m[n] == m'[n]
  {
    LookupUnique(m, s, name, {}, m'[n]);
  }

  lemma SecretsAgree(w: WorkView, assignments: seq<LoadAssignment>, x: IR, shaped: seq<ListenerView>,
      inlined: set<string>, s: IR, n: string)
    requires BothModes(w, assignments, x, shaped, inlined, s) && n in s.secrets
    ensures n in x.secrets && x.secrets[n] == s.secrets[n]
  {
    SameLookup(x.secrets, s.secrets, w.secrets, SecretName, w.compiledSecrets, n);
  }

  lemma FoundSecret(w: WorkView, assignments: seq<LoadAssignment>, x: IR, n: string)
    requires UniqueNames(w) && XdsIR(w, assignments, x) && FindSecret(w.secrets, n).Some?
    ensures n in x.secrets && x.secrets[n] == FindSecret(w.secrets, n).value
  {
    LookupUnique(x.secrets, w.secrets, SecretName, {}, FindSecret(w.secrets, n).value);
  }

  lemma FilterAgrees(w: WorkView, assignments: seq<LoadAssignment>, x: IR, shaped: seq<ListenerView>,
      inlined: set<string>, s: IR,
                     f: FilterConfig, g: FilterConfig)
    requires BothModes(w, assignments, x, shaped, inlined, s)
    requires Inlined(f, g, w.routes, inlined) && FilterClosed(s, g)
    ensures ResolveFilter(x, f) == ResolveFilter(s, g)
  {
    if f.HcmFilter? && f.hcm.routes.Rds? {
      var n := f.hcm.routes.name;
      if g == f {
        SameLookup(x.routes, s.routes, w.routes, RouteName, inlined, n);
      } else {
        LookupUnique(x.routes, w.routes, RouteName, {}, FindRoute(w.routes, n).value);
      }
    }
  }

  lemma TlsAgrees(w: WorkView, assignments: seq<LoadAssignment>, x: IR, shaped: seq<ListenerView>, inlined: set<string>,
      s: IR,
                  owner: string, k: nat, t: TlsContext)
    requires BothModes(w, assignments, x, shaped, inlined, s)
    requires CertSecret(w.secrets, owner, k).Some? && CertSecret(w.secrets, owner, k).value.content.TlsCertificate?
    requires t.validation.InlineValidation? ==> CaSecret(w.secrets, owner).Some?
    requires TlsClosed(s, StaticTls(owner, k, w.secrets, t))
    ensures ResolveTls(x, SdsTls(owner, k, w.secrets, t)) == ResolveTls(s, StaticTls(owner, k, w.secrets, t))
            <==> t.certSds == []
  {
    var a, b := SdsTls(owner, k, w.secrets, t), StaticTls(owner, k, w.secrets, t);
    FoundSecret(w, assignments, x, Names.Secret(owner, k));
    assert ResolveCerts(x, a) == [Some(b.certs[0])];
    assert |ResolveCerts(s, b)| == 1 + |t.certSds| && ResolveCerts(s, b)[0] == Some(b.certs[0]);
    if t.validation.InlineValidation? {
      FoundSecret(w, assignments, x, Names.ClientCa(owner));
    } else if t.validation.SdsValidation? {
      SecretsAgree(w, assignments, x, shaped, inlined, s, t.validation.secret);
    }
    if t.certSds == [] {
      assert ResolveCerts(s, b) == [Some(b.certs[0])];
    }
  }

  lemma SameTlsAgrees(w: WorkView, assignments: seq<LoadAssignment>, x: IR, shaped: seq<ListenerView>,
      inlined: set<string>, s: IR, t: TlsContext)
    requires BothModes(w, assignments, x, shaped, inlined, s) && TlsClosed(s, t)
    ensures ResolveTls(x, t) == ResolveTls(s, t)
  {
    forall i | 0 <= i < |t.certSds| ensures SecretCert(x, t.certSds[i]) == SecretCert(s, t.certSds[i]) {
      SecretsAgree(w, assignments, x, shaped, inlined, s, t.certSds[i]);
    }
    assert ResolveCerts(x, t) == ResolveCerts(s, t);
    if t.validation.SdsValidation? {
      SecretsAgree(w, assignments, x, shaped, inlined, s, t.validation.secret);
    }
  }

  lemma FiltersAgree(w: WorkView, assignments: seq<LoadAssignment>, x: IR, shaped: seq<ListenerView>,
      inlined: set<string>, s: IR,
                     c: ChainView, d: ChainView)
    requires BothModes(w, assignments, x, shaped, inlined, s)
    requires StaticChain(c, d, w.routes, inlined) && ChainClosed(s, d)
    ensures ResolveChain(x, c).filters == ResolveChain(s, d).filters
  {
    forall j | 0 <= j < |c.filters| ensures ResolveFilter(x, c.filters[j]) == ResolveFilter(s, d.filters[j]) {
      assert d.filters[j] in d.filters;
      FilterAgrees(w, assignments, x, shaped, inlined, s, c.filters[j], d.filters[j]);
    }
  }

  /** One chain of a compiled listener. */
  lemma CompiledChainAgrees(w: WorkView, assignments: seq<LoadAssignment>, x: IR, shaped: seq<ListenerView>,
      inlined: set<string>, s: IR,
                            v: ListenerView, u: ListenerView, i: nat)
    requires BothModes(w, assignments, x, shaped, inlined, s)
    requires v.name in w.compiledListeners && i < |v.chains|
    requires StaticOk(v, w.compiledListeners, w.secrets, w.compiledSecrets, w.routes)
    requires StaticView(v, u, w.compiledListeners, w.secrets, w.routes, inlined) && ListenerClosed(s, u)
    ensures ResolveChain(x, SdsChainAt(Owner(v), w.secrets, v.chains, i)) == ResolveChain(s, u.chains[i])
            <==> (v.chains[i].tls.Some? ==> v.chains[i].tls.value.certSds == [])
  {
    var c, d := v.chains[i], u.chains[i];
    assert d in u.chains && ChainClosed(s, d);
    FiltersAgree(w, assignments, x, shaped, inlined, s, c, d);
    assert ResolveChain(x, SdsChainAt(Owner(v), w.secrets, v.chains, i)).filters == ResolveChain(x, c).filters;
    if c.tls.Some? {
      assert StaticOkAt(Owner(v), w.secrets, v.chains, i);
      TlsAgrees(w, assignments, x, shaped, inlined, s, Owner(v), Ordinal(v.chains, i), c.tls.value);
    }
  }

  lemma CompiledListenerAgrees(w: WorkView, assignments: seq<LoadAssignment>, x: IR, shaped: seq<ListenerView>,
      inlined: set<string>, s: IR,
                               v: ListenerView, u: ListenerView)
    requires BothModes(w, assignments, x, shaped, inlined, s)
    requires v.name in w.compiledListeners
    requires StaticOk(v, w.compiledListeners, w.secrets, w.compiledSecrets, w.routes)
    requires StaticView(v, u, w.compiledListeners, w.secrets, w.routes, inlined) && ListenerClosed(s, u)
    ensures ResolveListener(x, XdsView(v, w.compiledListeners, w.secrets)) == ResolveListener(s, u)
            <==> NoCertReference(v)
  {
    var a, b := ResolveListener(x, XdsView(v, w.compiledListeners, w.secrets)), ResolveListener(s, u);
    forall i | 0 <= i < |v.chains|
      ensures a.chains[i] == b.chains[i] <==> (v.chains[i].tls.Some? ==> v.chains[i].tls.value.certSds == [])
    {
      CompiledChainAgrees(w, assignments, x, shaped, inlined, s, v, u, i);
    }
    assert a == b <==> a.chains == b.chains;
  }

  lemma UserListenerAgrees(w: WorkView, assignments: seq<LoadAssignment>, x: IR, shaped: seq<ListenerView>,
      inlined: set<string>, s: IR, v: ListenerView)
    requires BothModes(w, assignments, x, shaped, inlined, s) && ListenerClosed(s, v)
    ensures ResolveListener(x, v) == ResolveListener(s, v)
  {
    forall i | 0 <= i < |v.chains| ensures ResolveChain(x, v.chains[i]) == ResolveChain(s, v.chains[i]) {
      var c := v.chains[i];
      assert c in v.chains && ChainClosed(s, c);
      FiltersAgree(w, assignments, x, shaped, inlined, s, c, c);
      if c.tls.Some? {
        SameTlsAgrees(w, assignments, x, shaped, inlined, s, c.tls.value);
      }
    }
    assert ResolveListener(x, v).chains == ResolveListener(s, v).chains;
  }

  /** Listener i of the work set, in both resource sets. */
  lemma ListenerAgrees(w: WorkView, assignments: seq<LoadAssignment>, x: IR, shaped: seq<ListenerView>,
      inlined: set<string>, s: IR, i: nat)
    requires BothModes(w, assignments, x, shaped, inlined, s) && i < |w.listeners|
    ensures w.listeners[i].name in x.listeners && w.listeners[i].name in s.listeners
    ensures ResolveListener(x, x.listeners[w.listeners[i].name]) == ResolveListener(s, s.listeners[w.listeners[i].name])
            <==> (w.listeners[i].name in w.compiledListeners ==> NoCertReference(w.listeners[i]))
  {
    var v, u := w.listeners[i], shaped[i];
    assert StaticView(v, u, w.compiledListeners, w.secrets, w.routes, inlined);
    forall j | 0 <= j < |shaped| ensures shaped[j].name == w.listeners[j].name {
      assert StaticView(w.listeners[j], shaped[j], w.compiledListeners, w.secrets, w.routes, inlined);
    }
    assert Unique(shaped, ListenerName) by {
      forall j, k | 0 <= j < |shaped| && 0 <= k < |shaped| && ListenerName(shaped[j]) == ListenerName(shaped[k])
        ensures j == k
      {
        assert ListenerName(w.listeners[j]) == ListenerName(w.listeners[k]);
      }
    }
    var xs := XdsListeners(w);
    assert Unique(xs, ListenerName) by {
      forall j, k | 0 <= j < |xs| && 0 <= k < |xs| && ListenerName(xs[j]) == ListenerName(xs[k]) ensures j == k {
        assert ListenerName(w.listeners[j]) == ListenerName(w.listeners[k]);
      }
    }
    assert xs[i] == XdsView(v, w.compiledListeners, w.secrets) && xs[i] in xs && u in shaped;
    LookupUnique(x.listeners, xs, ListenerName, {}, xs[i]);
    LookupUnique(s.listeners, shaped, ListenerName, {}, u);
    assert ListenerClosed(s, s.listeners[v.name]);
    if v.name in w.compiledListeners {
      CompiledListenerAgrees(w, assignments, x, shaped, inlined, s, v, u);
    } else {
      UserListenerAgrees(w, assignments, x, shaped, inlined, s, v);
    }
  }

  lemma AssignmentNamed(w: WorkView, assignments: seq<LoadAssignment>, x: IR, n: string)
    requires XdsIR(w, assignments, x) && n in x.endpoints
    ensures x.endpoints[n].clusterName == n
    ensures x.endpoints[n] in w.endpoints || MovedFrom(x.endpoints[n], w.clusters)
  {
    assert AssignmentName(x.endpoints[n]) == n && x.endpoints[n] in assignments;
  }

  /** A moved assignment belongs to the cluster it is named after. */
  lemma MovedIsOwn(w: WorkView, b: LoadAssignment, c: ClusterView)
    requires UniqueNames(w) && forall i :: 0 <= i < |w.clusters| ==> MovesCleanly(w.clusters[i])
    requires c in w.clusters && c.name == b.clusterName
    ensures MovedFrom(b, w.clusters) ==> Extracts(c) && c.assignment.value == b
  {
    if MovedFrom(b, w.clusters) {
      var d :| d in w.clusters && Extracts(d) && d.assignment.value == b;
      var j :| 0 <= j < |w.clusters| && w.clusters[j] == d;
      var i :| 0 <= i < |w.clusters| && w.clusters[i] == c;
      assert ClusterName(w.clusters[i]) == ClusterName(w.clusters[j]);
    }
  }

  /** A cluster whose own assignment moved out finds it again under its name. */
  lemma MovedClusterAgrees(w: WorkView, assignments: seq<LoadAssignment>, x: IR, c: ClusterView)
    requires UniqueNames(w) && XdsWorkOk(w) && XdsIR(w, assignments, x)
    requires forall i :: 0 <= i < |w.clusters| ==> MovesCleanly(w.clusters[i])
    requires c in w.clusters && Extracts(c)
    ensures c.name in x.endpoints && x.endpoints[c.name] == c.assignment.value
  {
    var a := c.assignment.value;
    assert MovedFrom(a, w.clusters);
    assert a in assignments;
    var k :| 0 <= k < |assignments| && assignments[k] == a;
    assert AssignmentName(assignments[k]) in x.endpoints;
    AssignmentNamed(w, assignments, x, c.name);
    var i :| 0 <= i < |w.clusters| && w.clusters[i] == c;
    assert Extractable(c, w.endpoints);
    MovedIsOwn(w, x.endpoints[c.name], c);
  }

  /** A cluster left alone reads the same endpoints in both modes. */
  lemma OtherClusterAgrees(w: WorkView, assignments: seq<LoadAssignment>, x: IR, shaped: seq<ListenerView>,
      inlined: set<string>, s: IR, c: ClusterView)
    requires BothModes(w, assignments, x, shaped, inlined, s)
    requires forall i :: 0 <= i < |w.clusters| ==> MovesCleanly(w.clusters[i])
    requires c in w.clusters && !Extracts(c)
    ensures ResolveCluster(x, c) == ResolveCluster(s, c)
  {
    if c.name in s.endpoints {
      assert s.endpoints[c.name] in w.endpoints && s.endpoints[c.name] in assignments;
      var k :| 0 <= k < |assignments| && assignments[k] == s.endpoints[c.name];
      assert AssignmentName(assignments[k]) in x.endpoints;
    }
    if c.name in x.endpoints {
      AssignmentNamed(w, assignments, x, c.name);
      MovedIsOwn(w, x.endpoints[c.name], c);
      LookupUnique(s.endpoints, w.endpoints, AssignmentName, {}, x.endpoints[c.name]);
    }
  }

  lemma ClusterLookups(w: WorkView, assignments: seq<LoadAssignment>, x: IR, shaped: seq<ListenerView>,
      inlined: set<string>, s: IR, i: nat)
    requires BothModes(w, assignments, x, shaped, inlined, s) && i < |w.clusters|
    ensures var n := w.clusters[i].name;
            && n in x.clusters && x.clusters[n] == EdsCluster(w.clusters[i])
            && n in s.clusters && s.clusters[n] == w.clusters[i]
  {
    var xs := XdsClusters(w);
    assert Unique(xs, ClusterName) by {
      forall j, k | 0 <= j < |xs| && 0 <= k < |xs| && ClusterName(xs[j]) == ClusterName(xs[k]) ensures j == k {
        assert ClusterName(w.clusters[j]) == ClusterName(w.clusters[k]);
      }
    }
    assert xs[i] in xs && xs[i] == EdsCluster(w.clusters[i]);
    LookupUnique(x.clusters, xs, ClusterName, {}, xs[i]);
    LookupUnique(s.clusters, w.clusters, ClusterName, {}, w.clusters[i]);
  }

  /** A cluster that does not move cleanly means something else in xDS mode. */
  lemma UncleanClusterDiffers(w: WorkView, assignments: seq<LoadAssignment>, x: IR, shaped: seq<ListenerView>,
      inlined: set<string>, s: IR, i: nat)
    requires BothModes(w, assignments, x, shaped, inlined, s) && i < |w.clusters| && !MovesCleanly(w.clusters[i])
    ensures ResolveCluster(x, EdsCluster(w.clusters[i])) != ResolveCluster(s, w.clusters[i])
  {
    var c := w.clusters[i];
    if c.name in x.endpoints {
      AssignmentNamed(w, assignments, x, c.name);
    }
  }

  lemma NamesFromWork(w: WorkView, assignments: seq<LoadAssignment>, x: IR, shaped: seq<ListenerView>,
      inlined: set<string>, s: IR)
    requires BothModes(w, assignments, x, shaped, inlined, s)
    ensures forall n :: n in x.listeners || n in s.listeners ==>
      exists i :: 0 <= i < |w.listeners| && w.listeners[i].name == n
    ensures forall n :: n in x.clusters || n in s.clusters ==>
      exists i :: 0 <= i < |w.clusters| && w.clusters[i].name == n
  {
    forall n | n in x.listeners || n in s.listeners
      ensures exists i :: 0 <= i < |w.listeners| && w.listeners[i].name == n
    {
      if n in x.listeners {
        var xs := XdsListeners(w);
        assert x.listeners[n] in xs && ListenerName(x.listeners[n]) == n;
        var i :| 0 <= i < |xs| && xs[i] == x.listeners[n];
        assert w.listeners[i].name == n;
      } else {
        assert s.listeners[n] in shaped && ListenerName(s.listeners[n]) == n;
        var i :| 0 <= i < |shaped| && shaped[i] == s.listeners[n];
        assert StaticView(w.listeners[i], shaped[i], w.compiledListeners, w.secrets, w.routes, inlined);
        assert w.listeners[i].name == n;
      }
    }
    ClustersFromWork(w, assignments, x, shaped, inlined, s);
  }

  lemma ClustersFromWork(w: WorkView, assignments: seq<LoadAssignment>, x: IR, shaped: seq<ListenerView>,
      inlined: set<string>, s: IR)
    requires BothModes(w, assignments, x, shaped, inlined, s)
    ensures forall n :: n in x.clusters || n in s.clusters ==>
      exists i :: 0 <= i < |w.clusters| && w.clusters[i].name == n
  {
    hide XdsListeners, StaticView, EndpointsAfter, InlinedBy;
    forall n | n in x.clusters || n in s.clusters ensures exists i :: 0 <= i < |w.clusters| && w.clusters[i].name == n {
      if n in x.clusters {
        var xs := XdsClusters(w);
        assert x.clusters[n] in xs && ClusterName(x.clusters[n]) == n;
        var i :| 0 <= i < |xs| && xs[i] == x.clusters[n];
        assert w.clusters[i].name == n;
      } else {
        assert s.clusters[n] in w.clusters && ClusterName(s.clusters[n]) == n;
      }
    }
  }

  lemma ListenersAgree(w: WorkView, assignments: seq<LoadAssignment>, x: IR, shaped: seq<ListenerView>,
      inlined: set<string>, s: IR)
    requires BothModes(w, assignments, x, shaped, inlined, s) && Clean(w)
    ensures MeaningOf(x).listeners == MeaningOf(s).listeners
  {
    hide BothModes, ResolveListener;
    NamesFromWork(w, assignments, x, shaped, inlined, s);
    forall i | 0 <= i < |w.listeners|
      ensures w.listeners[i].name in x.listeners && w.listeners[i].name in s.listeners
      ensures ResolveListener(x, x.listeners[w.listeners[i].name])
              == ResolveListener(s, s.listeners[w.listeners[i].name])
    {
      ListenerAgrees(w, assignments, x, shaped, inlined, s, i);
    }
  }

  lemma ClusterAgrees(w: WorkView, assignments: seq<LoadAssignment>, x: IR, shaped: seq<ListenerView>,
      inlined: set<string>, s: IR, i: nat)
    requires BothModes(w, assignments, x, shaped, inlined, s) && i < |w.clusters|
    requires forall j :: 0 <= j < |w.clusters| ==> MovesCleanly(w.clusters[j])
    ensures w.clusters[i].name in x.clusters && w.clusters[i].name in s.clusters
    ensures ResolveCluster(x, x.clusters[w.clusters[i].name]) == ResolveCluster(s, s.clusters[w.clusters[i].name])
  {
    ClusterLookups(w, assignments, x, shaped, inlined, s, i);
    var c := w.clusters[i];
    if Extracts(c) {
      assert MovesCleanly(c);
      MovedClusterAgrees(w, assignments, x, c);
    } else {
      OtherClusterAgrees(w, assignments, x, shaped, inlined, s, c);
    }
  }

  lemma ClustersAgree(w: WorkView, assignments: seq<LoadAssignment>, x: IR, shaped: seq<ListenerView>,
      inlined: set<string>, s: IR)
    requires BothModes(w, assignments, x, shaped, inlined, s) && Clean(w)
    ensures MeaningOf(x).clusters == MeaningOf(s).clusters
  {
    hide BothModes, ResolveCluster;
    NamesFromWork(w, assignments, x, shaped, inlined, s);
    forall i | 0 <= i < |w.clusters|
      ensures w.clusters[i].name in x.clusters && w.clusters[i].name in s.clusters
      ensures ResolveCluster(x, x.clusters[w.clusters[i].name]) == ResolveCluster(s, s.clusters[w.clusters[i].name])
    {
      ClusterAgrees(w, assignments, x, shaped, inlined, s, i);
    }
  }

  /** The two modes of a work set mean the same exactly when no compiled TLS context carries a certificate
      reference of its own and every cluster whose endpoints move out is a STATIC cluster with an assignment
      under its own name. */
  lemma ModesAgree(w: WorkView, assignments: seq<LoadAssignment>, x: IR, shaped: seq<ListenerView>,
      inlined: set<string>, s: IR)
    requires BothModes(w, assignments, x, shaped, inlined, s)
    ensures MeaningOf(x) == MeaningOf(s) <==> Clean(w)
  {
    if Clean(w) {
      ListenersAgree(w, assignments, x, shaped, inlined, s);
      ClustersAgree(w, assignments, x, shaped, inlined, s);
    } else if i :| && 0 <= i < |w.listeners| && w.listeners[i].name in w.compiledListeners
                   && !NoCertReference(w.listeners[i]) {
      ListenerAgrees(w, assignments, x, shaped, inlined, s, i);
      var n := w.listeners[i].name;
      assert MeaningOf(x).listeners[n] != MeaningOf(s).listeners[n];
    } else {
      var i :| 0 <= i < |w.clusters| && !MovesCleanly(w.clusters[i]);
      ClusterLookups(w, assignments, x, shaped, inlined, s, i);
      UncleanClusterDiffers(w, assignments, x, shaped, inlined, s, i);
      var n := w.clusters[i].name;
      assert MeaningOf(x).clusters[n] != MeaningOf(s).clusters[n];
    }
  }

  /** A cluster with a custom type reads as STATIC, so xDS mode replaces that type by EDS: both modes succeed
      and pass F6, yet mean different things. */
  lemma CustomClusterDiverges() returns (w: WorkView, assignments: seq<LoadAssignment>, x: IR, s: IR)
    ensures BothModes(w, assignments, x, [], {}, s) && Closed(x)
    ensures MeaningOf(x) != MeaningOf(s)
  {
    hide BothModes, MeaningOf, Closed, Clean, MovesCleanly;
    var a := LoadAssignment("cache", []);
    var c := ClusterView("cache", CustomType("envoy.clusters.redis"), Some(a), false);
    w, assignments := WorkView([], [], [c], [], [], {}, {}), [a];
    x := IR(map[], map["cache" := EdsCluster(c)], map[], map["cache" := a], map[]);
    s := IR(map[], map["cache" := c], map[], map[], map[]);
    OneClusterXds(w, x, c, a);
    OneClusterStatic(w, s, c);
    OneClusterBoth(w, x, s, c, a);
    NotClean(w, c);
    ModesAgree(w, assignments, x, [], {}, s);
  }

  /** A work set of one cluster. */
  ghost predicate Only(w: WorkView, c: ClusterView) {
    w == WorkView([], [], [c], [], [], {}, {})
  }

  lemma OneClusterXds(w: WorkView, x: IR, c: ClusterView, a: LoadAssignment)
    requires Only(w, c) && Extracts(c) && c.name == a.clusterName && c.assignment == Some(a)
    requires x == IR(map[], map[c.name := EdsCluster(c)], map[], map[c.name := a], map[])
    ensures XdsIR(w, [a], x) && XdsWorkOk(w) && Closed(x)
  {
    assert XdsClusters(w) == [EdsCluster(c)];
    assert MovedFrom(a, w.clusters) by { assert c in w.clusters; }
  }

  lemma OneClusterStatic(w: WorkView, s: IR, c: ClusterView)
    requires Only(w, c) && !c.edsConfig && s == IR(map[], map[c.name := c], map[], map[], map[])
    ensures StaticIR(w, [], {}, s) && StaticWorkOk(w) && Closed(s)
  {
  }

  lemma OneClusterBoth(w: WorkView, x: IR, s: IR, c: ClusterView, a: LoadAssignment)
    requires Only(w, c) && XdsIR(w, [a], x) && XdsWorkOk(w) && StaticIR(w, [], {}, s) && StaticWorkOk(w)
    requires Closed(s)
    ensures BothModes(w, [a], x, [], {}, s)
  {
    hide XdsIR, StaticIR, XdsWorkOk, StaticWorkOk, Closed;
  }

  lemma NotClean(w: WorkView, c: ClusterView)
    requires Only(w, c) && Extracts(c) && !c.discovery.Static?
    ensures !Clean(w)
  {
    assert !MovesCleanly(w.clusters[0]);
  }
}
