/** Both shapes of a tidy work set pass F6, and both mean what the work set says directly. */
module TidyMeaning {
  import opened Text
  import opened Envoy
  import opened Shaping
  import opened Link
  import opened Materialize
  import opened WorkSet
  import opened Synthesis
  import opened CrossRefs
  import opened ModeEquivalence
  import opened CompiledSecrets
  import opened TidyWork
  import Names

  // The direct reading of a work set: every reference replaced by what it names

  function DirectFilter(routes: seq<RouteConfig>, f: FilterConfig): FilterConfig {
    if f.HcmFilter? && f.hcm.routes.Rds? && FindRoute(routes, f.hcm.routes.name).Some?
    then HcmFilter(f.hcm.(routes := InlineRoutes(FindRoute(routes, f.hcm.routes.name).value))) else f
  }

  function DirectTls(t: TlsContext): ResolvedTls {
    ResolvedTls(seq(|t.certs|, i requires 0 <= i < |t.certs| => Some(t.certs[i])), t.validation, t.requireClientCert)
  }

  function DirectChain(routes: seq<RouteConfig>, c: ChainView): ChainMeaning {
    ChainMeaning(c.serverNames, if c.tls.Some? then Some(DirectTls(c.tls.value)) else None,
                 seq(|c.filters|, i requires 0 <= i < |c.filters| => DirectFilter(routes, c.filters[i])))
  }

  function DirectListener(routes: seq<RouteConfig>, v: ListenerView): ListenerMeaning {
    ListenerMeaning(
      v.name, v.bound, seq(|v.chains|, i requires 0 <= i < |v.chains| => DirectChain(routes, v.chains[i])),
      v.listenerFilters)
  }

  function DirectCluster(c: ClusterView): ClusterMeaning {
    if c.discovery.Static? then FixedEndpoints(c.assignment) else Discovered(c.discovery, c.assignment)
  }

  /** The resource set means exactly the work set. */
  ghost predicate MeansDirectly(w: WorkView, m: Meaning) {
    && (forall n :: n in m.listeners <==> exists i :: 0 <= i < |w.listeners| && w.listeners[i].name == n)
    && (forall i :: 0 <= i < |w.listeners| && w.listeners[i].name in m.listeners ==>
           m.listeners[w.listeners[i].name] == DirectListener(w.routes, w.listeners[i]))
    && (forall n :: n in m.clusters <==> HasCluster(w, n))
    && (forall i :: 0 <= i < |w.clusters| && w.clusters[i].name in m.clusters ==>
           m.clusters[w.clusters[i].name] == DirectCluster(w.clusters[i]))
  }

  // References into a resource set that holds the work set's clusters and routes

  ghost predicate HoldsNames(w: WorkView, ir: IR) {
    forall n :: HasCluster(w, n) ==> n in ir.clusters
  }

  lemma RouteIsClosed(w: WorkView, ir: IR, rc: RouteConfig)
    requires RouteRefers(w, rc) && HoldsNames(w, ir)
    ensures RoutesClosed(ir, rc)
  {
  }

  lemma HcmIsClosed(w: WorkView, ir: IR, h: Hcm)
    requires HcmRefers(w, h) && HoldsNames(w, ir)
    ensures forall f :: f in h.httpFilters ==> HttpFilterClosed(ir, f)
  {
    forall f | f in h.httpFilters ensures HttpFilterClosed(ir, f) {
      assert f.ExtAuthz? ==> HasCluster(w, f.cluster);
    }
  }

  lemma FoundRouteRefers(w: WorkView, n: string)
    requires Refers(w) && FindRoute(w.routes, n).Some?
    ensures RouteRefers(w, FindRoute(w.routes, n).value)
  {
    var i :| 0 <= i < |w.routes| && w.routes[i] == FindRoute(w.routes, n).value;
    assert RouteRefers(w, w.routes[i]);
  }

  lemma ListenerFiltersClosed(w: WorkView, ir: IR, v: ListenerView)
    requires ListenerRefers(w, v) && HoldsNames(w, ir)
    ensures forall f :: f in v.listenerFilters ==> ListenerFilterClosed(ir, f)
  {
    forall f | f in v.listenerFilters ensures ListenerFilterClosed(ir, f) {
      assert f.UdpProxy? ==> HasCluster(w, f.cluster);
    }
  }

  lemma SameListener(w: WorkView, i: nat, j: nat)
    requires Tidy(w) && i < |w.listeners| && j < |w.listeners| && w.listeners[i].name == w.listeners[j].name
    ensures i == j
  {
    assert ListenerName(w.listeners[i]) == ListenerName(w.listeners[j]);
  }

  lemma SameCluster(w: WorkView, i: nat, j: nat)
    requires Tidy(w) && i < |w.clusters| && j < |w.clusters| && w.clusters[i].name == w.clusters[j].name
    ensures i == j
  {
    assert ClusterName(w.clusters[i]) == ClusterName(w.clusters[j]);
  }

  // xDS

  lemma XdsHoldsNames(w: WorkView, assignments: seq<LoadAssignment>, ir: IR)
    requires XdsIR(w, assignments, ir)
    ensures HoldsNames(w, ir)
  {
    forall n | HasCluster(w, n) ensures n in ir.clusters {
      var i :| 0 <= i < |w.clusters| && w.clusters[i].name == n;
      assert ClusterName(XdsClusters(w)[i]) == n;
    }
  }

  lemma XdsRoute(w: WorkView, assignments: seq<LoadAssignment>, ir: IR, n: string)
    requires Tidy(w) && XdsIR(w, assignments, ir) && FindRoute(w.routes, n).Some?
    ensures n in ir.routes && ir.routes[n] == FindRoute(w.routes, n).value
  {
    LookupUnique(ir.routes, w.routes, RouteName, {}, FindRoute(w.routes, n).value);
  }

  lemma XdsFilter(w: WorkView, assignments: seq<LoadAssignment>, ir: IR, f: FilterConfig)
    requires Tidy(w) && XdsIR(w, assignments, ir) && FilterRefers(w, f)
    ensures FilterClosed(ir, f) && ResolveFilter(ir, f) == DirectFilter(w.routes, f)
  {
    hide Tidy, XdsIR, HcmRefers;
    XdsHoldsNames(w, assignments, ir);
    if f.HcmFilter? {
      assert f.hcm.routes.Rds? && FindRoute(w.routes, f.hcm.routes.name).Some? by { HcmHasRoute(w, f.hcm); }
      XdsRoute(w, assignments, ir, f.hcm.routes.name);
      HcmIsClosed(w, ir, f.hcm);
    }
  }

  lemma HcmHasRoute(w: WorkView, h: Hcm)
    requires HcmRefers(w, h)
    ensures h.routes.Rds? && FindRoute(w.routes, h.routes.name).Some?
  {
  }

  lemma XdsTls(w: WorkView, assignments: seq<LoadAssignment>, ir: IR, i: nat, k: nat)
    requires Tidy(w) && XdsIR(w, assignments, ir) && i < |w.listeners| && k < |w.listeners[i].chains|
    requires w.listeners[i].chains[k].tls.Some?
    ensures var v := w.listeners[i];
            var t := SdsTls(Owner(v), Ordinal(v.chains, k), w.secrets, v.chains[k].tls.value);
            TlsClosed(ir, t) && ResolveTls(ir, t) == DirectTls(w.listeners[i].chains[k].tls.value)
  {
    hide Ordinal, Refers, AllSecrets, UniqueNames, XdsIR;
    var v := w.listeners[i];
    var t := v.chains[k].tls.value;
    assert TidyListener(v) && TidyChain(v.chains[k]);
    ChainFindsSecrets(w, i, k);
    TidyIsClean(w);
    FoundSecret(w, assignments, ir, Names.Secret(Owner(v), Ordinal(v.chains, k)));
    if t.validation.InlineValidation? {
      FoundSecret(w, assignments, ir, Names.ClientCa(Owner(v)));
    }
    var u := SdsTls(Owner(v), Ordinal(v.chains, k), w.secrets, t);
    assert ResolveCerts(ir, u) == [Some(t.certs[0])] == DirectTls(t).certs;
  }

  lemma XdsChain(w: WorkView, assignments: seq<LoadAssignment>, ir: IR, i: nat, k: nat)
    requires Tidy(w) && XdsIR(w, assignments, ir) && i < |w.listeners| && k < |w.listeners[i].chains|
    ensures var c := SdsChainAt(Owner(w.listeners[i]), w.secrets, w.listeners[i].chains, k);
            ChainClosed(ir, c) && ResolveChain(ir, c) == DirectChain(w.routes, w.listeners[i].chains[k])
  {
    hide XdsIR, FilterClosed, ResolveFilter, DirectFilter, TlsClosed, ResolveTls, DirectTls, SdsTls, Ordinal,
      FilterRefers;
    var v := w.listeners[i];
    var c := SdsChainAt(Owner(v), w.secrets, v.chains, k);
    assert ListenerRefers(w, v);
    forall j | 0 <= j < |c.filters|
      ensures FilterClosed(ir, c.filters[j])
      ensures ResolveFilter(ir, c.filters[j]) == DirectFilter(w.routes, v.chains[k].filters[j])
    {
      assert FilterRefers(w, v.chains[k].filters[j]);
      XdsFilter(w, assignments, ir, v.chains[k].filters[j]);
    }
    if c.tls.Some? {
      XdsTls(w, assignments, ir, i, k);
    }
  }

  lemma XdsListener(w: WorkView, assignments: seq<LoadAssignment>, ir: IR, i: nat)
    requires Tidy(w) && XdsIR(w, assignments, ir) && i < |w.listeners|
    ensures ListenerClosed(ir, XdsListeners(w)[i])
    ensures ResolveListener(ir, XdsListeners(w)[i]) == DirectListener(w.routes, w.listeners[i])
  {
    hide XdsIR, ChainClosed, ResolveChain, DirectChain, SdsChainAt, Refers;
    var v, u := w.listeners[i], XdsListeners(w)[i];
    assert v.name in w.compiledListeners;
    forall k | 0 <= k < |v.chains|
      ensures ChainClosed(ir, u.chains[k]) && ResolveChain(ir, u.chains[k]) == DirectChain(w.routes, v.chains[k])
    {
      XdsChain(w, assignments, ir, i, k);
    }
    XdsHoldsNames(w, assignments, ir);
    assert ListenerRefers(w, v) by { RefersAt(w, i); }
    ListenerFiltersClosed(w, ir, v);
  }

  lemma RefersAt(w: WorkView, i: nat)
    requires Refers(w) && i < |w.listeners|
    ensures ListenerRefers(w, w.listeners[i])
  {
  }

  lemma XdsCluster(w: WorkView, assignments: seq<LoadAssignment>, ir: IR, i: nat)
    requires Tidy(w) && XdsIR(w, assignments, ir) && i < |w.clusters|
    ensures var c := XdsClusters(w)[i];
            ResolveCluster(ir, c) == DirectCluster(w.clusters[i]) && (c.edsConfig ==> c.name in ir.endpoints)
  {
    hide XdsIR, Refers, AllSecrets;
    var c := w.clusters[i];
    assert TidyCluster(c);
    TidyIsClean(w);
    BothAccept(w);
    if Extracts(c) {
      assert c in w.clusters;
      MovedClusterAgrees(w, assignments, ir, c);
    }
  }

  lemma XdsLookup(w: WorkView, assignments: seq<LoadAssignment>, ir: IR)
    requires Tidy(w) && XdsIR(w, assignments, ir)
    ensures forall n :: n in ir.listeners ==>
      exists i :: 0 <= i < |w.listeners| && w.listeners[i].name == n && ir.listeners[n] == XdsListeners(w)[i]
    ensures forall n :: n in ir.clusters ==>
      exists i :: 0 <= i < |w.clusters| && w.clusters[i].name == n && ir.clusters[n] == XdsClusters(w)[i]
    ensures forall i :: 0 <= i < |w.listeners| ==> w.listeners[i].name in ir.listeners
    ensures HoldsNames(w, ir)
  {
    hide Refers, SdsListener, EdsCluster, Tidy, EndpointsAfter, XdsView;
    XdsHoldsNames(w, assignments, ir);
    XdsNames(w);
    var ls, cs := XdsListeners(w), XdsClusters(w);
    forall n | n in ir.listeners
      ensures exists i :: 0 <= i < |w.listeners| && w.listeners[i].name == n && ir.listeners[n] == ls[i]
    {
      assert ir.listeners[n] in ls && ListenerName(ir.listeners[n]) == n;
    }
    forall n | n in ir.clusters
      ensures exists i :: 0 <= i < |w.clusters| && w.clusters[i].name == n && ir.clusters[n] == cs[i]
    {
      assert ir.clusters[n] in cs && ClusterName(ir.clusters[n]) == n;
    }
    forall i | 0 <= i < |w.listeners| ensures w.listeners[i].name in ir.listeners {
      assert ListenerName(ls[i]) in ir.listeners;
    }
  }

  lemma XdsNames(w: WorkView)
    ensures |XdsListeners(w)| == |w.listeners| && |XdsClusters(w)| == |w.clusters|
    ensures forall i :: 0 <= i < |w.listeners| ==> XdsListeners(w)[i].name == w.listeners[i].name
    ensures forall i :: 0 <= i < |w.clusters| ==> XdsClusters(w)[i].name == w.clusters[i].name
  {
  }

  lemma RoutesOfWork(w: WorkView, ir: IR, skip: set<string>)
    requires Refers(w) && HoldsNames(w, ir) && Indexed(ir.routes, w.routes, RouteName, skip)
    ensures forall n :: n in ir.routes ==> RoutesClosed(ir, ir.routes[n])
  {
    hide RouteRefers, RoutesClosed, HoldsNames, ListenerRefers;
    forall n | n in ir.routes ensures RoutesClosed(ir, ir.routes[n]) {
      assert ir.routes[n] in w.routes;
      var i :| 0 <= i < |w.routes| && w.routes[i] == ir.routes[n];
      RouteIsClosed(w, ir, w.routes[i]);
    }
  }

  /** The xDS resource set of a tidy work set passes F6 and means the work set. */
  lemma XdsMeaning(w: WorkView, assignments: seq<LoadAssignment>, ir: IR)
    requires Tidy(w) && XdsIR(w, assignments, ir)
    ensures Closed(ir) && MeansDirectly(w, MeaningOf(ir))
  {
    hide Tidy, XdsIR, ListenerClosed, RoutesClosed, ResolveListener, ResolveCluster, DirectListener, DirectCluster,
      XdsListeners, XdsClusters;
    XdsLookup(w, assignments, ir);
    XdsNames(w);
    XdsListenersMean(w, assignments, ir);
    XdsClustersMean(w, assignments, ir);
    assert Refers(w) && Indexed(ir.routes, w.routes, RouteName, {}) by { XdsParts(w, assignments, ir); }
    RoutesOfWork(w, ir, {});
  }

  lemma XdsListenersMean(w: WorkView, assignments: seq<LoadAssignment>, ir: IR)
    requires Tidy(w) && XdsIR(w, assignments, ir)
    ensures forall n :: n in ir.listeners ==> ListenerClosed(ir, ir.listeners[n])
    ensures forall i :: 0 <= i < |w.listeners| && w.listeners[i].name in ir.listeners ==>
              MeaningOf(ir).listeners[w.listeners[i].name] == DirectListener(w.routes, w.listeners[i])
  {
    hide Tidy, XdsIR, ListenerClosed, ResolveListener, DirectListener, XdsListeners;
    XdsLookup(w, assignments, ir);
    XdsNames(w);
    forall n | n in ir.listeners ensures ListenerClosed(ir, ir.listeners[n]) {
      var i :| 0 <= i < |w.listeners| && w.listeners[i].name == n && ir.listeners[n] == XdsListeners(w)[i];
      XdsListener(w, assignments, ir, i);
    }
    forall i | 0 <= i < |w.listeners| && w.listeners[i].name in ir.listeners
      ensures MeaningOf(ir).listeners[w.listeners[i].name] == DirectListener(w.routes, w.listeners[i])
    {
      var n := w.listeners[i].name;
      var j :| 0 <= j < |w.listeners| && w.listeners[j].name == n && ir.listeners[n] == XdsListeners(w)[j];
      SameListener(w, i, j);
      XdsListener(w, assignments, ir, i);
    }
  }

  lemma XdsClustersMean(w: WorkView, assignments: seq<LoadAssignment>, ir: IR)
    requires Tidy(w) && XdsIR(w, assignments, ir)
    ensures forall n :: n in ir.clusters && ir.clusters[n].edsConfig ==> n in ir.endpoints
    ensures forall i :: 0 <= i < |w.clusters| && w.clusters[i].name in ir.clusters ==>
              MeaningOf(ir).clusters[w.clusters[i].name] == DirectCluster(w.clusters[i])
  {
    hide Tidy, XdsIR, ResolveCluster, DirectCluster, XdsClusters;
    XdsLookup(w, assignments, ir);
    XdsNames(w);
    forall n | n in ir.clusters && ir.clusters[n].edsConfig ensures n in ir.endpoints {
      var i :| 0 <= i < |w.clusters| && w.clusters[i].name == n && ir.clusters[n] == XdsClusters(w)[i];
      XdsCluster(w, assignments, ir, i);
    }
    forall i | 0 <= i < |w.clusters| && w.clusters[i].name in ir.clusters
      ensures MeaningOf(ir).clusters[w.clusters[i].name] == DirectCluster(w.clusters[i])
    {
      var n := w.clusters[i].name;
      var j :| 0 <= j < |w.clusters| && w.clusters[j].name == n && ir.clusters[n] == XdsClusters(w)[j];
      SameCluster(w, i, j);
      XdsCluster(w, assignments, ir, i);
    }
  }

  lemma XdsParts(w: WorkView, assignments: seq<LoadAssignment>, ir: IR)
    requires Tidy(w) && XdsIR(w, assignments, ir)
    ensures Refers(w) && Indexed(ir.routes, w.routes, RouteName, {})
  {
  }

  // Static

  /** Every route reference of the shaped listeners is gone. */
  ghost predicate FullyInlined(w: WorkView, shaped: seq<ListenerView>, inlined: set<string>, ir: IR) {
    && StaticIR(w, shaped, inlined, ir)
    && forall i :: 0 <= i < |shaped| ==> NoRdsLeft(shaped[i])
  }

  lemma StaticHoldsNames(w: WorkView, shaped: seq<ListenerView>, inlined: set<string>, ir: IR)
    requires StaticIR(w, shaped, inlined, ir)
    ensures HoldsNames(w, ir)
  {
    forall n | HasCluster(w, n) ensures n in ir.clusters {
      var i :| 0 <= i < |w.clusters| && w.clusters[i].name == n;
      assert ClusterName(w.clusters[i]) == n;
    }
  }

  /** f became g, and g is no route reference. */
  lemma StaticFilter(w: WorkView, ir: IR, inlined: set<string>, f: FilterConfig, g: FilterConfig)
    requires Refers(w) && HoldsNames(w, ir) && FilterRefers(w, f) && Inlined(f, g, w.routes, inlined)
    requires g.HcmFilter? ==> !g.hcm.routes.Rds?
    ensures FilterClosed(ir, g) && ResolveFilter(ir, g) == DirectFilter(w.routes, f)
  {
    hide Refers, HcmRefers, HoldsNames;
    if f.HcmFilter? {
      HcmHasRoute(w, f.hcm);
      var n := f.hcm.routes.name;
      HcmIsClosed(w, ir, f.hcm);
      FoundRouteRefers(w, n);
      RouteIsClosed(w, ir, FindRoute(w.routes, n).value);
    } else if f.TcpProxy? {
      Found(w, ir, f.cluster);
    }
  }

  lemma Found(w: WorkView, ir: IR, n: string)
    requires HoldsNames(w, ir) && HasCluster(w, n)
    ensures n in ir.clusters
  {
  }

  lemma StaticTlsMeaning(w: WorkView, ir: IR, i: nat, k: nat)
    requires Tidy(w) && i < |w.listeners| && k < |w.listeners[i].chains| && w.listeners[i].chains[k].tls.Some?
    ensures var v := w.listeners[i];
            var t := StaticTls(Owner(v), Ordinal(v.chains, k), w.secrets, v.chains[k].tls.value);
            TlsClosed(ir, t) && ResolveTls(ir, t) == DirectTls(w.listeners[i].chains[k].tls.value)
  {
    hide Ordinal, Refers, AllSecrets;
    var v := w.listeners[i];
    var t := v.chains[k].tls.value;
    assert TidyListener(v) && TidyChain(v.chains[k]);
    ChainFindsSecrets(w, i, k);
    var u := StaticTls(Owner(v), Ordinal(v.chains, k), w.secrets, t);
    assert ResolveCerts(ir, u) == [Some(t.certs[0])] == DirectTls(t).certs;
  }

  lemma StaticChainMeaning(w: WorkView, ir: IR, inlined: set<string>, i: nat, k: nat, d: ChainView)
    requires Tidy(w) && HoldsNames(w, ir) && i < |w.listeners| && k < |w.listeners[i].chains|
    requires StaticChain(w.listeners[i].chains[k], d, w.routes, inlined)
    requires d.tls == StaticSocket(Owner(w.listeners[i]), w.secrets, w.listeners[i].chains, k)
    requires forall j :: 0 <= j < |d.filters| && d.filters[j].HcmFilter? ==> !d.filters[j].hcm.routes.Rds?
    ensures ChainClosed(ir, d) && ResolveChain(ir, d) == DirectChain(w.routes, w.listeners[i].chains[k])
  {
    hide HoldsNames, FilterClosed, ResolveFilter, DirectFilter, TlsClosed, ResolveTls, DirectTls, StaticTls, Ordinal,
      FilterRefers, Inlined;
    var v := w.listeners[i];
    assert ListenerRefers(w, v);
    forall j | 0 <= j < |d.filters|
      ensures FilterClosed(ir, d.filters[j])
      ensures ResolveFilter(ir, d.filters[j]) == DirectFilter(w.routes, v.chains[k].filters[j])
    {
      assert FilterRefers(w, v.chains[k].filters[j]);
      StaticFilter(w, ir, inlined, v.chains[k].filters[j], d.filters[j]);
    }
    if d.tls.Some? {
      StaticTlsMeaning(w, ir, i, k);
    }
  }

  lemma StaticListenerMeaning(w: WorkView, shaped: seq<ListenerView>, inlined: set<string>, ir: IR, i: nat)
    requires Tidy(w) && FullyInlined(w, shaped, inlined, ir) && i < |w.listeners| == |shaped|
    ensures shaped[i].name == w.listeners[i].name
    ensures ListenerClosed(ir, shaped[i]) && ResolveListener(ir, shaped[i]) == DirectListener(w.routes, w.listeners[i])
  {
    hide ChainClosed, ResolveChain, DirectChain, Refers, HoldsNames, StaticChain, StaticIR, Tidy;
    var v, u := w.listeners[i], shaped[i];
    StaticHoldsNames(w, shaped, inlined, ir);
    ShapedAt(w, shaped, inlined, ir, i);
    forall k | 0 <= k < |v.chains|
      ensures ChainClosed(ir, u.chains[k]) && ResolveChain(ir, u.chains[k]) == DirectChain(w.routes, v.chains[k])
    {
      StaticChainMeaning(w, ir, inlined, i, k, u.chains[k]);
    }
    RefersAt(w, i);
    ListenerFiltersClosed(w, ir, v);
  }

  lemma ShapedAt(w: WorkView, shaped: seq<ListenerView>, inlined: set<string>, ir: IR, i: nat)
    requires Tidy(w) && StaticIR(w, shaped, inlined, ir) && i < |w.listeners|
    ensures |shaped| == |w.listeners| && Refers(w)
    ensures StaticListener(Owner(w.listeners[i]), w.secrets, w.routes, inlined, w.listeners[i], shaped[i])
  {
    hide Refers, StaticListener, Indexed, InlinedBy;
    assert w.listeners[i].name in w.compiledListeners;
    assert StaticView(w.listeners[i], shaped[i], w.compiledListeners, w.secrets, w.routes, inlined);
  }

  lemma StaticLookup(w: WorkView, shaped: seq<ListenerView>, inlined: set<string>, ir: IR)
    requires Tidy(w) && FullyInlined(w, shaped, inlined, ir)
    ensures |shaped| == |w.listeners|
    ensures forall n :: n in ir.listeners ==>
      exists i :: 0 <= i < |w.listeners| && w.listeners[i].name == n && ir.listeners[n] == shaped[i]
    ensures forall n :: n in ir.clusters ==>
      exists i :: 0 <= i < |w.clusters| && w.clusters[i].name == n && ir.clusters[n] == w.clusters[i]
    ensures forall i :: 0 <= i < |w.listeners| ==> w.listeners[i].name in ir.listeners
    ensures HoldsNames(w, ir)
  {
    hide Refers, Tidy, StaticView, NoRdsLeft, InlinedBy;
    StaticHoldsNames(w, shaped, inlined, ir);
    forall i | 0 <= i < |w.listeners| ensures shaped[i].name == w.listeners[i].name {
      StaticListenerMeaning(w, shaped, inlined, ir, i);
    }
    forall n | n in ir.listeners
      ensures exists i :: 0 <= i < |w.listeners| && w.listeners[i].name == n && ir.listeners[n] == shaped[i]
    {
      assert ir.listeners[n] in shaped && ListenerName(ir.listeners[n]) == n;
    }
    forall n | n in ir.clusters
      ensures exists i :: 0 <= i < |w.clusters| && w.clusters[i].name == n && ir.clusters[n] == w.clusters[i]
    {
      assert ir.clusters[n] in w.clusters && ClusterName(ir.clusters[n]) == n;
    }
    forall i | 0 <= i < |w.listeners| ensures w.listeners[i].name in ir.listeners {
      assert ListenerName(shaped[i]) in ir.listeners;
    }
  }

  lemma StaticParts(w: WorkView, shaped: seq<ListenerView>, inlined: set<string>, ir: IR)
    requires Tidy(w) && FullyInlined(w, shaped, inlined, ir)
    ensures Refers(w) && Indexed(ir.routes, w.routes, RouteName, inlined)
    ensures forall i :: 0 <= i < |w.clusters| ==> TidyCluster(w.clusters[i])
  {
  }

  /** The static resource set of a tidy work set passes F6 and means the work set, once no route reference is left. */
  lemma StaticMeaning(w: WorkView, shaped: seq<ListenerView>, inlined: set<string>, ir: IR)
    requires Tidy(w) && FullyInlined(w, shaped, inlined, ir)
    ensures Closed(ir) && MeansDirectly(w, MeaningOf(ir))
  {
    hide Tidy, FullyInlined, ListenerClosed, RoutesClosed, ResolveListener, DirectListener, DirectCluster;
    StaticLookup(w, shaped, inlined, ir);
    StaticParts(w, shaped, inlined, ir);
    StaticListenersMean(w, shaped, inlined, ir);
    StaticClustersMean(w, shaped, inlined, ir);
    RoutesOfWork(w, ir, inlined);
  }

  lemma StaticListenersMean(w: WorkView, shaped: seq<ListenerView>, inlined: set<string>, ir: IR)
    requires Tidy(w) && FullyInlined(w, shaped, inlined, ir)
    ensures forall n :: n in ir.listeners ==> ListenerClosed(ir, ir.listeners[n])
    ensures forall i :: 0 <= i < |w.listeners| && w.listeners[i].name in ir.listeners ==>
              MeaningOf(ir).listeners[w.listeners[i].name] == DirectListener(w.routes, w.listeners[i])
  {
    hide Tidy, FullyInlined, ListenerClosed, ResolveListener, DirectListener, HoldsNames;
    StaticLookup(w, shaped, inlined, ir);
    forall n | n in ir.listeners ensures ListenerClosed(ir, ir.listeners[n]) {
      var i :| 0 <= i < |w.listeners| && w.listeners[i].name == n && ir.listeners[n] == shaped[i];
      StaticListenerMeaning(w, shaped, inlined, ir, i);
    }
    forall i | 0 <= i < |w.listeners|
      ensures MeaningOf(ir).listeners[w.listeners[i].name] == DirectListener(w.routes, w.listeners[i])
    {
      var n := w.listeners[i].name;
      var j :| 0 <= j < |w.listeners| && w.listeners[j].name == n && ir.listeners[n] == shaped[j];
      SameListener(w, i, j);
      StaticListenerMeaning(w, shaped, inlined, ir, i);
    }
  }

  lemma StaticClustersMean(w: WorkView, shaped: seq<ListenerView>, inlined: set<string>, ir: IR)
    requires Tidy(w) && FullyInlined(w, shaped, inlined, ir)
    ensures forall i :: 0 <= i < |w.clusters| && w.clusters[i].name in ir.clusters ==>
              MeaningOf(ir).clusters[w.clusters[i].name] == DirectCluster(w.clusters[i])
  {
    hide Tidy, FullyInlined, HoldsNames;
    StaticLookup(w, shaped, inlined, ir);
    StaticParts(w, shaped, inlined, ir);
    forall i | 0 <= i < |w.clusters| && w.clusters[i].name in ir.clusters
      ensures MeaningOf(ir).clusters[w.clusters[i].name] == DirectCluster(w.clusters[i])
    {
      var n := w.clusters[i].name;
      var j :| 0 <= j < |w.clusters| && w.clusters[j].name == n && ir.clusters[n] == w.clusters[j];
      SameCluster(w, i, j);
    }
  }
}
