/** The compiler from end to end: link, build, synthesize, materialize, cross-reference check. */
module Compile {
  import opened Text
  import opened Config
  import opened Link
  import opened LinkL4
  import opened LinkHostnames
  import opened LinkChecks
  import opened Envoy
  import opened Policies
  import opened Shaping
  import opened BuildValues
  import opened BuildRoutes
  import opened ListenerValues
  import opened BuildListeners
  import opened Build
  import opened Materialize
  import opened WorkSet
  import opened Synthesis
  import opened CrossRefs
  import opened ModeEquivalence
  import opened CompiledSecrets
  import opened TidyWork
  import opened TidyMeaning
  import opened CompiledWork
  import Names
  import Sorting

  method LinkAll(env: Env, cs: ConfigSet) returns (lk: Linked, errs: seq<CompileError>)
    requires WellFormed(cs)
    ensures Indexes(lk, cs)
    ensures AllAt(errs, LinkStage)
    ensures errs == [] <==> LinkOk(lk, cs) && AddressesUnique(cs.listeners) && ChecksOk(env, lk, cs)
  {
    hide Indexes, NoDanglingReference, RouteFormOk, L4ConstraintsOk, NoHostnameConflict, TlsRulesOk, WellFormed,
      AddressesUnique, LevelsOk, AllFilesOk, NoKubernetes;
    lk := BuildIndex(cs);
    var e1 := ResolveReferences(cs, lk);
    var e2 := CheckListenerAddressUnique(cs);
    var e3 := CheckRouteForm(cs, lk);
    var e4 := CheckL4RouteConstraints(cs, lk);
    var e5 := CheckHostnameConflicts(cs, lk);
    var e6 := CheckPolicyAttachmentLevels(cs, lk);
    var e7 := CheckTlsRules(cs);
    var e8 := CheckCertificates(env, cs);
    var e9 := CheckKubernetesService(env, cs);
    var rest := e7 + e8 + e9;
    errs := e1 + e2 + e3 + e4 + e5 + e6 + rest;
    assert rest == [] <==> e7 == [] && e8 == [] && e9 == [];
    assert errs == [] <==> e1 == [] && e2 == [] && e3 == [] && e4 == [] && e5 == [] && e6 == [] && rest == [];
  }

  ghost predicate BuildOk(env: Env, lk: Linked, cs: ConfigSet) {
    NoKubernetes(cs.upstreams) && forall l :: l in cs.listeners ==> ListenerOk(env, lk, cs, l)
  }

  lemma SortedHasAll(cs: ConfigSet)
    ensures forall l :: l in SortedListeners(cs) <==> l in cs.listeners
  {
    Sorting.SortPermutes(cs.listeners, ListenerLe);
  }

  lemma SortedBuildable(lk: Linked, cs: ConfigSet)
    requires WellFormed(cs) && LinkOk(lk, cs)
    ensures AllBuildable(cs, SortedListeners(cs))
  {
    SortedHasAll(cs);
    forall l | l in SortedListeners(cs) ensures Buildable(cs, l) {
      LinkedIsBuildable(cs, l);
    }
  }

  /** The value of the work set, once everything was built. */
  lemma WorkIsCompiled(env: Env, lk: Linked, cs: ConfigSet, ls: seq<Envoy.Listener>, routes: seq<RouteConfig>,
      auth: map<string, ClusterView>, cvs: seq<ClusterView>)
    returns (w: WorkView)
    requires AllBuildable(cs, SortedListeners(cs)) && Progress(env, lk, cs, SortedListeners(cs), ls, routes, auth)
    requires ClusterSet(cs, auth, cvs) && forall n :: n in auth ==> AuthClusterShape(n, auth[n])
    requires forall l :: l in SortedListeners(cs) ==> ListenerOk(env, lk, cs, l)
    ensures CompiledFrom(env, lk, cs, auth, w)
    ensures Separate(ls) && ShowAll(ls, w.listeners) && w.routes == routes && w.clusters == cvs
    ensures forall i :: 0 <= i < |ls| ==> SharedHcm(ls[i])
  {
    hide ViewOf, ClusterSet, AuthClusterShape, AuthClustersIn, Shows, SharedHcm, DistinctChains, Separate, AllSecrets,
      RouteConfigs, Buildable, AuthClusters, ListenerOk;
    var kept := KeptListeners(cs);
    forall l | l in kept ensures AuthClustersIn(env, lk, cs, l, auth.Keys) {
      AuthClustersKnown(env, lk, cs, SortedListeners(cs), l);
    }
    var vs := ViewsOf(env, lk, cs, kept);
    var ss := AllSecrets(vs);
    w := WorkView(vs, routes, cvs, [], ss, set v | v in vs :: v.name, set s | s in ss :: s.name);
    assert forall i :: 0 <= i < |ls| ==> Built(ls[i], vs[i]);
  }

  ghost predicate Ready(work: WorkSetObject, w: WorkView)
    reads work, ChainsOf(work.listeners), AllFilters(work.listeners), work.clusters
  {
    work.Holds(w) && forall i :: 0 <= i < |work.listeners| ==> SharedHcm(work.listeners[i])
  }

  /** Stage F4 without escape hatches. */
  method Synthesize(ls: seq<Envoy.Listener>, routes: seq<RouteConfig>, clusters: seq<Cluster>,
      ghost w: WorkView) returns (work: WorkSetObject)
    requires Separate(ls) && ShowAll(ls, w.listeners) && (forall i :: 0 <= i < |ls| ==> SharedHcm(ls[i]))
    requires Sorting.Distinct(clusters) && ShowClusters(clusters, w.clusters) && routes == w.routes
    requires w.endpoints == [] && w.secrets == AllSecrets(w.listeners)
    requires w.compiledListeners == (set v | v in w.listeners :: v.name)
    requires w.compiledSecrets == (set s | s in w.secrets :: s.name)
    ensures fresh(work) && work.listeners == ls && work.clusters == clusters && Ready(work, w)
  {
    hide Separate, AllSecrets;
    var secrets, names, secretNames := ExtractCompiledSecrets(ls, w.listeners);
    work := new WorkSetObject(ls, routes, clusters);
    work.secrets, work.compiledListeners, work.compiledSecrets := secrets, names, secretNames;
  }

  method BuildWork(env: Env, lk: Linked, cs: ConfigSet)
    returns (work: WorkSetObject?, errs: seq<CompileError>, ghost auth: map<string, ClusterView>, ghost w: WorkView)
    requires WellFormed(cs) && LinkOk(lk, cs)
    ensures AllAt(errs, BuildStage)
    ensures work != null <==> errs == []
    ensures errs == [] <==> BuildOk(env, lk, cs)
    ensures work != null ==>
      && fresh(work) && fresh(ChainsOf(work.listeners)) && fresh(AllFilters(work.listeners))
      && fresh(set c | c in work.clusters)
    ensures work != null ==> CompiledFrom(env, lk, cs, auth, w) && Ready(work, w)
  {
    hide WellFormed, LinkOk, Progress, ListenerOk, ClusterSet, NoKubernetes, Separate, Shows, SharedHcm, CompiledFrom,
      SortedListeners, AllBuildable, AllSecrets, AuthClusterShape, Ready, Sorting.Distinct;
    work, auth, w := null, map[], WorkView([], [], [], [], [], {}, {});
    SortedBuildable(lk, cs);
    SortedHasAll(cs);
    var ctx := new BuildContext();
    var ls, routes, lerrs := BuildAllListeners(env, lk, cs, ctx);
    var clusters, cerrs, cvs := BuildAllClusters(cs, ctx);
    errs := lerrs + cerrs;
    assert errs == [] <==> lerrs == [] && cerrs == [];
    if errs == [] {
      auth := ctx.extAuth;
      w := WorkIsCompiled(env, lk, cs, ls, routes, auth, cvs);
      CompiledParts(env, lk, cs, auth, w);
      work := Synthesize(ls, routes, clusters, w);
    }
  }

  lemma CompiledParts(env: Env, lk: Linked, cs: ConfigSet, auth: map<string, ClusterView>, w: WorkView)
    requires CompiledFrom(env, lk, cs, auth, w)
    ensures w.endpoints == [] && w.secrets == AllSecrets(w.listeners)
    ensures w.compiledListeners == (set v | v in w.listeners :: v.name)
    ensures w.compiledSecrets == (set s | s in w.secrets :: s.name)
  {
  }

  // What the result means

  /** The meaning of a configured listener: its routes and TLS material in place of every reference. */
  ghost function ListenerMeans(env: Env, lk: Linked, cs: ConfigSet, l: Config.Listener): ListenerMeaning
    requires Buildable(cs, l)
  {
    DirectListener([RouteConfigOf(env, lk, cs, l)], ViewOf(env, lk, cs, l))
  }

  function UpstreamMeans(u: Upstream): ClusterMeaning
    requires !u.source.KubernetesService?
  {
    DirectCluster(UpstreamCluster(u))
  }

  /** The external authorization clusters of the configuration. */
  ghost function AuthOf(env: Env, lk: Linked, cs: ConfigSet): map<string, ClusterView> {
    AuthClusters(env, lk, cs, SortedListeners(cs))
  }

  ghost predicate NamesUpstream(cs: ConfigSet, n: string) {
    exists u :: u in cs.upstreams && n == Names.Cluster(u.name)
  }

  /** Exactly the clusters of the upstreams and of the external authorization services, each as configured. */
  ghost predicate ServesClusters(env: Env, lk: Linked, cs: ConfigSet, clusters: map<string, ClusterMeaning>) {
    && (forall n :: n in clusters <==> n in AuthOf(env, lk, cs) || NamesUpstream(cs, n))
    && (forall u :: u in cs.upstreams ==>
          && !u.source.KubernetesService? && Names.Cluster(u.name) in clusters
          && clusters[Names.Cluster(u.name)] == UpstreamMeans(u))
    && (forall n :: n in AuthOf(env, lk, cs) ==> n in clusters && clusters[n] == DirectCluster(AuthOf(env, lk, cs)[n]))
  }

  /** The data plane serves exactly the configured listeners and clusters, each as configured. */
  ghost predicate Serves(env: Env, lk: Linked, cs: ConfigSet, m: Meaning) {
    && (forall l :: l in cs.listeners ==> Buildable(cs, l))
    && (forall n :: n in m.listeners <==> exists l :: l in cs.listeners && Produced(l) && n == Names.Listener(l.name))
    && (forall l :: l in cs.listeners && Produced(l) ==>
          Names.Listener(l.name) in m.listeners && m.listeners[Names.Listener(l.name)] == ListenerMeans(env, lk, cs, l))
    && ServesClusters(env, lk, cs, m.clusters)
  }

  lemma HcmMeans(env: Env, lk: Linked, cs: ConfigSet, kept: seq<Config.Listener>, i: nat)
    requires Sorting.DistinctBy(kept, NameOfListener) && i < |kept| && Buildable(cs, kept[i])
    requires kept[i].protocol.IsHttp()
    ensures DirectFilter(RouteConfigs(env, lk, cs, kept), HcmFilterOf(env, lk, cs, kept[i]))
            == DirectFilter([RouteConfigOf(env, lk, cs, kept[i])], HcmFilterOf(env, lk, cs, kept[i]))
  {
    hide RoutesOf, WantedOn, FinalVhost, RawVhost, RouteConfigs, HttpFilters;
    RouteFoundFor(env, lk, cs, kept, i);
  }

  lemma DirectMeans(env: Env, lk: Linked, cs: ConfigSet, kept: seq<Config.Listener>, i: nat)
    requires Sorting.DistinctBy(kept, NameOfListener) && i < |kept| && Buildable(cs, kept[i])
    ensures DirectListener(RouteConfigs(env, lk, cs, kept), ViewOf(env, lk, cs, kept[i]))
            == ListenerMeans(env, lk, cs, kept[i])
  {
    hide RouteConfigs, RouteConfigOf, HcmFilterOf, DirectTls, TlsOf, ForwardsOf, Specs;
    var v := ViewOf(env, lk, cs, kept[i]);
    var a, b := DirectListener(RouteConfigs(env, lk, cs, kept), v), ListenerMeans(env, lk, cs, kept[i]);
    if kept[i].protocol.IsHttp() {
      HcmMeans(env, lk, cs, kept, i);
    }
    forall k | 0 <= k < |v.chains| ensures a.chains[k] == b.chains[k] {
      assert a.chains[k].filters == b.chains[k].filters;
    }
    assert a.chains == b.chains;
  }

  lemma ListenersServed(env: Env, lk: Linked, cs: ConfigSet, auth: map<string, ClusterView>, w: WorkView, m: Meaning,
      l: Config.Listener)
    requires WellFormed(cs) && CompiledFrom(env, lk, cs, auth, w) && MeansDirectly(w, m) && l in cs.listeners
    requires Produced(l) && Buildable(cs, l)
    ensures Names.Listener(l.name) in m.listeners
    ensures m.listeners[Names.Listener(l.name)] == ListenerMeans(env, lk, cs, l)
  {
    hide WellFormed, ClusterSet, ViewOf, RouteConfigs, ListenerMeans, DirectListener, KeptListeners, AuthClusterShape,
      AuthClustersIn, AllSecrets, Buildable, DirectCluster;
    KeptNames(cs);
    var kept := KeptListeners(cs);
    var i :| 0 <= i < |kept| && kept[i] == l;
    ViewNamed(env, lk, cs, l);
    assert w.listeners[i].name == Names.Listener(l.name);
    DirectMeans(env, lk, cs, kept, i);
  }

  lemma ServedListeners(env: Env, lk: Linked, cs: ConfigSet, auth: map<string, ClusterView>, w: WorkView, m: Meaning,
      n: string)
    requires WellFormed(cs) && CompiledFrom(env, lk, cs, auth, w) && MeansDirectly(w, m) && n in m.listeners
    ensures exists l :: l in cs.listeners && Produced(l) && n == Names.Listener(l.name)
  {
    hide WellFormed, ClusterSet, ViewOf, RouteConfigs, DirectListener, KeptListeners, AuthClusterShape, AuthClustersIn,
      AllSecrets, Buildable, DirectCluster;
    KeptNames(cs);
    var kept := KeptListeners(cs);
    var i :| 0 <= i < |w.listeners| && w.listeners[i].name == n;
    assert kept[i] in kept;
    ViewNamed(env, lk, cs, kept[i]);
  }

  lemma UpstreamServed(env: Env, lk: Linked, cs: ConfigSet, auth: map<string, ClusterView>, w: WorkView, m: Meaning,
      u: Upstream)
    requires CompiledFrom(env, lk, cs, auth, w) && MeansDirectly(w, m) && u in cs.upstreams
    ensures !u.source.KubernetesService? && Names.Cluster(u.name) in m.clusters
    ensures m.clusters[Names.Cluster(u.name)] == UpstreamMeans(u)
  {
    hide ViewsOf, RouteConfigs, DirectListener, KeptListeners, AuthClusterShape, AuthClustersIn, AllSecrets, Buildable;
    var c := UpstreamCluster(u);
    assert c in w.clusters;
    var i :| 0 <= i < |w.clusters| && w.clusters[i] == c;
    assert HasCluster(w, c.name);
  }

  lemma AuthServed(env: Env, lk: Linked, cs: ConfigSet, auth: map<string, ClusterView>, w: WorkView, m: Meaning,
      n: string)
    requires CompiledFrom(env, lk, cs, auth, w) && MeansDirectly(w, m) && n in auth
    ensures n in m.clusters && m.clusters[n] == DirectCluster(auth[n])
  {
    hide ViewsOf, RouteConfigs, DirectListener, KeptListeners, AuthClustersIn, AllSecrets, Buildable, AuthClusters,
      DirectCluster;
    assert auth[n] in w.clusters && AuthClusterShape(n, auth[n]);
    var i :| 0 <= i < |w.clusters| && w.clusters[i] == auth[n];
    assert HasCluster(w, n);
  }

  lemma ServedCluster(env: Env, lk: Linked, cs: ConfigSet, auth: map<string, ClusterView>, w: WorkView, m: Meaning,
      n: string)
    requires CompiledFrom(env, lk, cs, auth, w) && MeansDirectly(w, m) && n in m.clusters
    ensures n in auth || NamesUpstream(cs, n)
  {
    hide ViewsOf, RouteConfigs, DirectListener, KeptListeners, AuthClustersIn, AllSecrets, Buildable, AuthClusters,
      DirectCluster;
    assert HasCluster(w, n);
    var i :| 0 <= i < |w.clusters| && w.clusters[i].name == n;
    assert w.clusters[i] in w.clusters;
    if n !in auth {
      var u :| u in cs.upstreams && w.clusters[i] == UpstreamCluster(u);
      assert n == Names.Cluster(u.name);
    }
  }

  lemma ClustersServed(env: Env, lk: Linked, cs: ConfigSet, auth: map<string, ClusterView>, w: WorkView, m: Meaning)
    requires CompiledFrom(env, lk, cs, auth, w) && MeansDirectly(w, m)
    ensures ServesClusters(env, lk, cs, m.clusters)
  {
    hide CompiledFrom, MeansDirectly, UpstreamMeans, DirectCluster, AuthClusters;
    assert auth == AuthOf(env, lk, cs) by { AuthIs(env, lk, cs, auth, w); }
    forall u | u in cs.upstreams
      ensures !u.source.KubernetesService? && Names.Cluster(u.name) in m.clusters
      ensures m.clusters[Names.Cluster(u.name)] == UpstreamMeans(u)
    {
      UpstreamServed(env, lk, cs, auth, w, m, u);
    }
    forall n | n in auth ensures n in m.clusters && m.clusters[n] == DirectCluster(auth[n]) {
      AuthServed(env, lk, cs, auth, w, m, n);
    }
    forall n ensures n in m.clusters <==> n in auth || NamesUpstream(cs, n) {
      if n in m.clusters {
        ServedCluster(env, lk, cs, auth, w, m, n);
      }
    }
  }

  lemma AuthIs(env: Env, lk: Linked, cs: ConfigSet, auth: map<string, ClusterView>, w: WorkView)
    requires CompiledFrom(env, lk, cs, auth, w)
    ensures auth == AuthOf(env, lk, cs)
  {
  }

  lemma CompiledServes(env: Env, lk: Linked, cs: ConfigSet, auth: map<string, ClusterView>, w: WorkView, m: Meaning)
    requires WellFormed(cs) && LinkOk(lk, cs) && CompiledFrom(env, lk, cs, auth, w) && MeansDirectly(w, m)
    ensures Serves(env, lk, cs, m)
  {
    hide CompiledFrom, MeansDirectly, ListenerMeans, UpstreamMeans, Produced, Buildable, WellFormed, LinkOk,
      ServesClusters;
    forall l | l in cs.listeners ensures Buildable(cs, l) {
      LinkParts(lk, cs);
      LinkedIsBuildable(cs, l);
    }
    forall l | l in cs.listeners && Produced(l)
      ensures Names.Listener(l.name) in m.listeners
      ensures m.listeners[Names.Listener(l.name)] == ListenerMeans(env, lk, cs, l)
    {
      ListenersServed(env, lk, cs, auth, w, m, l);
    }
    forall n | n in m.listeners ensures exists l :: l in cs.listeners && Produced(l) && n == Names.Listener(l.name) {
      ServedListeners(env, lk, cs, auth, w, m, n);
    }
    ClustersServed(env, lk, cs, auth, w, m);
  }

  lemma LinkParts(lk: Linked, cs: ConfigSet)
    requires LinkOk(lk, cs)
    ensures L4ConstraintsOk(cs) && TlsRulesOk(cs)
  {
  }

  // The static form stands alone

  lemma FirstHcmOf(env: Env, lk: Linked, cs: ConfigSet, l: Config.Listener)
    requires Buildable(cs, l) && l.protocol.IsHttp() && Produced(l)
    ensures FirstHcm(ViewOf(env, lk, cs, l).chains) == Some(HcmOf(env, lk, cs, l))
  {
    hide HcmOf;
    var chains := ViewOf(env, lk, cs, l).chains;
    assert chains[0].filters == [Envoy.HcmFilter(HcmOf(env, lk, cs, l))];
  }

  lemma RouteIsInlined(env: Env, lk: Linked, cs: ConfigSet, auth: map<string, ClusterView>, w: WorkView,
      inlined: set<string>, k: nat)
    requires WellFormed(cs) && CompiledFrom(env, lk, cs, auth, w)
    requires InlinedBy(w.listeners, |w.listeners|, w.compiledListeners, w.routes, inlined)
    requires k < |w.routes|
    ensures w.routes[k].name in inlined
  {
    hide WellFormed, ClusterSet, ViewOf, RouteConfigs, KeptListeners, AuthClusterShape, AuthClustersIn, AllSecrets,
      Buildable, HttpFilters, WantedOn, RoutesOf, RawVhost, FinalVhost;
    KeptNames(cs);
    var kept := KeptListeners(cs);
    var i := RouteConfigHasListener(env, lk, cs, kept, k);
    assert kept[i] in kept;
    FirstHcmOf(env, lk, cs, kept[i]);
    RouteFoundFor(env, lk, cs, kept, i);
    assert w.routes[k].name in InlinedName(w.routes, w.listeners[i].chains);
    assert w.listeners[i].name in w.compiledListeners;
  }

  /** Nothing is left to discover: no route, secret or endpoint resource remains. */
  lemma StaticStandsAlone(env: Env, lk: Linked, cs: ConfigSet, auth: map<string, ClusterView>, w: WorkView,
      shaped: seq<ListenerView>, inlined: set<string>, ir: IR)
    requires WellFormed(cs) && CompiledFrom(env, lk, cs, auth, w) && StaticIR(w, shaped, inlined, ir)
    ensures ir.routes == map[] && ir.secrets == map[] && ir.endpoints == map[]
  {
    hide CompiledFrom, WellFormed, StaticView, InlinedBy;
    CompiledParts(env, lk, cs, auth, w);
    forall n | n in ir.routes ensures false {
      assert ir.routes[n] in w.routes && RouteName(ir.routes[n]) == n;
      var k :| 0 <= k < |w.routes| && w.routes[k] == ir.routes[n];
      RouteIsInlined(env, lk, cs, auth, w, inlined, k);
    }
    assert ir.routes.Keys == {} && ir.secrets.Keys == {} && ir.endpoints.Keys == {};
  }

  /** Stages F5 and F6. */
  method Emit(work: WorkSetObject, mode: Mode, ghost w: WorkView) returns (out: Option<IR>, errs: seq<CompileError>,
      ghost inlined: set<string>, ghost shaped: seq<ListenerView>)
    requires Ready(work, w) && Tidy(w)
    modifies ChainsOf(work.listeners), AllFilters(work.listeners), work.clusters
    ensures errs == [] && out.Some?
    ensures Closed(out.value) && MeansDirectly(w, MeaningOf(out.value))
    ensures mode.StaticMode? ==> FullyInlined(w, shaped, inlined, out.value)
  {
    hide Tidy, Closed, MeansDirectly, XdsIR, StaticIR, XdsWorkOk, StaticWorkOk, SharedHcm, NoRdsLeft, Separate, Shows;
    BothAccept(w);
    inlined, shaped := {}, [];
    match mode {
      case Xds =>
        ghost var assignments;
        out, errs, assignments := work.MaterializeXds(w);
        XdsMeaning(w, assignments, out.value);
      case StaticMode =>
        out, errs, inlined, shaped := work.MaterializeStatic(w);
        CompiledNames(w);
        StaticLength(w, shaped, inlined, out.value);
        assert FullyInlined(w, shaped, inlined, out.value);
        StaticMeaning(w, shaped, inlined, out.value);
    }
    var verrs := CheckCrossRefs(out.value);
    errs := errs + verrs;
  }

  lemma CompiledNames(w: WorkView)
    requires Tidy(w)
    ensures forall i :: 0 <= i < |w.listeners| ==> w.listeners[i].name in w.compiledListeners
  {
    hide Refers, AllSecrets, Unique, TidyListener;
  }

  lemma StaticLength(w: WorkView, shaped: seq<ListenerView>, inlined: set<string>, ir: IR)
    requires StaticIR(w, shaped, inlined, ir)
    ensures |shaped| == |w.listeners|
  {
  }

  /** Compilation without escape hatches. It succeeds exactly when linking and building do, whatever the
      mode: the later stages never report an error. The result is closed and serves the configuration. */
  method Compile(env: Env, cs: ConfigSet, mode: Mode) returns (out: Option<IR>, errs: seq<CompileError>,
      ghost lk: Linked)
    requires WellFormed(cs)
    ensures Indexes(lk, cs)
    ensures out.Some? <==> errs == []
    ensures out.Some?
            <==> LinkOk(lk, cs) && AddressesUnique(cs.listeners) && ChecksOk(env, lk, cs) && BuildOk(env, lk, cs)
    ensures AllAt(errs, LinkStage) || AllAt(errs, BuildStage)
    ensures out.Some? ==> Closed(out.value) && Serves(env, lk, cs, MeaningOf(out.value))
    ensures out.Some? && mode.StaticMode? ==>
      out.value.routes == map[] && out.value.secrets == map[] && out.value.endpoints == map[]
  {
    hide WellFormed, Indexes, LinkOk, AddressesUnique, ChecksOk, BuildOk, Closed, Serves, CompiledFrom, Tidy, Ready,
      MeansDirectly, FullyInlined;
    out := None;
    var link;
    link, errs := LinkAll(env, cs);
    lk := link;
    if errs != [] {
      return;
    }
    var work, berrs, auth, w := BuildWork(env, link, cs);
    errs := berrs;
    if work != null {
      CompiledIsTidy(env, lk, cs, auth, w);
      ghost var inlined, shaped;
      out, errs, inlined, shaped := Emit(work, mode, w);
      CompiledServes(env, lk, cs, auth, w, MeaningOf(out.value));
      if mode.StaticMode? {
        assert StaticIR(w, shaped, inlined, out.value) by { InlinedIsStatic(w, shaped, inlined, out.value); }
        StaticStandsAlone(env, lk, cs, auth, w, shaped, inlined, out.value);
      }
    }
  }

  lemma InlinedIsStatic(w: WorkView, shaped: seq<ListenerView>, inlined: set<string>, ir: IR)
    requires FullyInlined(w, shaped, inlined, ir)
    ensures StaticIR(w, shaped, inlined, ir)
  {
  }

  // Consequences for whoever runs the result

  /** Two results that serve one configuration, in whatever modes, mean the same. */
  lemma ModeDoesNotMatter(env: Env, lk: Linked, cs: ConfigSet, a: Meaning, b: Meaning)
    requires Serves(env, lk, cs, a) && Serves(env, lk, cs, b)
    ensures a == b
  {
    hide ServesClusters;
    SameListeners(env, lk, cs, a, b);
    SameClusters(env, lk, cs, a, b);
  }

  /** Every listener is served where it is configured, and no two served listeners are bound to one address and port. */
  lemma BoundApart(env: Env, lk: Linked, cs: ConfigSet, m: Meaning)
    requires Serves(env, lk, cs, m) && AddressesUnique(cs.listeners)
    ensures forall l :: l in cs.listeners && Produced(l) ==>
              Names.Listener(l.name) in m.listeners && m.listeners[Names.Listener(l.name)].bound == BoundTo(l)
    ensures forall a, b :: a in m.listeners && b in m.listeners && a != b ==>
              (m.listeners[a].bound.address, m.listeners[a].bound.port)
              != (m.listeners[b].bound.address, m.listeners[b].bound.port)
  {
    hide ServesClusters, Produced, ListenerMeans;
    forall l | l in cs.listeners && Produced(l)
      ensures Names.Listener(l.name) in m.listeners && m.listeners[Names.Listener(l.name)].bound == BoundTo(l)
    {
      MeansBound(env, lk, cs, l);
    }
    forall a, b | a in m.listeners && b in m.listeners && a != b
      ensures (m.listeners[a].bound.address, m.listeners[a].bound.port)
              != (m.listeners[b].bound.address, m.listeners[b].bound.port)
    {
      var k :| k in cs.listeners && Produced(k) && a == Names.Listener(k.name);
      var l :| l in cs.listeners && Produced(l) && b == Names.Listener(l.name);
      var i :| 0 <= i < |cs.listeners| && cs.listeners[i] == k;
      var j :| 0 <= j < |cs.listeners| && cs.listeners[j] == l;
      assert i != j;
    }
  }

  lemma MeansBound(env: Env, lk: Linked, cs: ConfigSet, l: Config.Listener)
    requires Buildable(cs, l)
    ensures ListenerMeans(env, lk, cs, l).bound == BoundTo(l)
  {
    hide HcmFilterOf, HttpsChain, PassthroughChain, Specs, ForwardsOf, DirectChain;
  }

  lemma SameListeners(env: Env, lk: Linked, cs: ConfigSet, a: Meaning, b: Meaning)
    requires Serves(env, lk, cs, a) && Serves(env, lk, cs, b)
    ensures a.listeners == b.listeners
  {
    hide ListenerMeans, ServesClusters, Produced;
    forall n | n in a.listeners ensures n in b.listeners && a.listeners[n] == b.listeners[n] {
      var l :| l in cs.listeners && Produced(l) && n == Names.Listener(l.name);
    }
    forall n | n in b.listeners ensures n in a.listeners {
      var l :| l in cs.listeners && Produced(l) && n == Names.Listener(l.name);
    }
  }

  lemma SameClusters(env: Env, lk: Linked, cs: ConfigSet, a: Meaning, b: Meaning)
    requires ServesClusters(env, lk, cs, a.clusters) && ServesClusters(env, lk, cs, b.clusters)
    ensures a.clusters == b.clusters
  {
    hide AuthOf, UpstreamMeans, DirectCluster;
    forall n | n in a.clusters ensures n in b.clusters && a.clusters[n] == b.clusters[n] {
      if n !in AuthOf(env, lk, cs) {
        var u :| u in cs.upstreams && n == Names.Cluster(u.name);
      }
    }
  }

  lemma ServedHcm(env: Env, lk: Linked, cs: ConfigSet, l: Config.Listener, c: nat)
    requires Buildable(cs, l) && l.protocol.IsHttp() && c < |ListenerMeans(env, lk, cs, l).chains|
    ensures ListenerMeans(env, lk, cs, l).chains[c].filters
         == [HcmFilter(HcmOf(env, lk, cs, l).(routes := InlineRoutes(RouteConfigOf(env, lk, cs, l))))]
  {
    hide RoutesOf, WantedOn, FinalVhost, RawVhost, HttpFilters, DirectTls, TlsOf;
  }

  lemma NothingToBuild(env: Env, lk: Linked, cs: ConfigSet, l: Config.Listener)
    requires cs.routes == [] && (l.tls.Some? ==> l.tls.value.certificates == [])
    ensures HttpOk(env, lk, cs, l)
  {
    hide CertificatesOk;
    assert SortedRoutes(cs) == [] && RoutesOf(cs, l) == [] && WantedOn(lk, cs, l) == [];
    NoCertificates(env);
  }

  /** An HTTPS listener with an empty certificate list passes link and build, and no result serves it. */
  lemma ListenerWithoutCertificatesVanishes(env: Env) returns (lk: Linked, cs: ConfigSet)
    ensures WellFormed(cs) && LinkOk(lk, cs) && AddressesUnique(cs.listeners) && ChecksOk(env, lk, cs)
    ensures BuildOk(env, lk, cs)
    ensures |cs.listeners| == 1 && forall m :: Serves(env, lk, cs, m) ==> m.listeners == map[]
  {
    hide WellFormed, LinkOk, AddressesUnique, ChecksOk, BuildOk, Serves;
    var l := Config.Listener("web", "0.0.0.0", 443, HTTPS, Some(ListenerTls([], "")), false, []);
    cs := ConfigSet([], [l], [], [], []);
    lk := Linked(map["web" := l], map[], map[]);
    AloneLinks(lk, cs, l);
    AloneChecks(env, lk, cs, l);
    AloneBuilds(env, lk, cs, l);
    forall m | Serves(env, lk, cs, m) ensures m.listeners == map[] {
      AloneVanishes(env, lk, cs, l, m);
    }
  }

  /** The configuration of one HTTPS listener without certificates. */
  ghost predicate Alone(lk: Linked, cs: ConfigSet, l: Config.Listener) {
    && cs == ConfigSet([], [l], [], [], []) && lk == Linked(map["web" := l], map[], map[])
    && l == Config.Listener("web", "0.0.0.0", 443, HTTPS, Some(ListenerTls([], "")), false, [])
  }

  lemma AloneLinks(lk: Linked, cs: ConfigSet, l: Config.Listener)
    requires Alone(lk, cs, l)
    ensures WellFormed(cs) && LinkOk(lk, cs)
  {
    assert l in cs.listeners && lk.listeners["web"] == l;
    assert AttachedTo(cs.routes, l.name) == [];
  }

  lemma AloneChecks(env: Env, lk: Linked, cs: ConfigSet, l: Config.Listener)
    requires Alone(lk, cs, l)
    ensures AddressesUnique(cs.listeners) && ChecksOk(env, lk, cs)
  {
  }

  lemma AloneBuilds(env: Env, lk: Linked, cs: ConfigSet, l: Config.Listener)
    requires Alone(lk, cs, l)
    ensures BuildOk(env, lk, cs)
  {
    hide HttpOk;
    NothingToBuild(env, lk, cs, l);
  }

  lemma AloneVanishes(env: Env, lk: Linked, cs: ConfigSet, l: Config.Listener, m: Meaning)
    requires Alone(lk, cs, l) && Serves(env, lk, cs, m)
    ensures m.listeners == map[]
  {
    hide ListenerMeans, ServesClusters;
    assert !Produced(l);
    assert forall n :: n !in m.listeners;
  }
}
