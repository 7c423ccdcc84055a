/** Stage F3 over a whole configuration. */
module Build {
  import opened Text
  import opened Config
  import opened Link
  import opened Envoy
  import opened Policies
  import opened BuildValues
  import opened BuildRoutes
  import opened ListenerValues
  import opened BuildListeners
  import opened Materialize
  import opened WorkSet
  import Names
  import Sorting

  function SortedListeners(cs: ConfigSet): seq<Config.Listener> { Sorting.Sort(cs.listeners, ListenerLe) }

  function Kept(ls: seq<Config.Listener>): (out: seq<Config.Listener>)
    ensures forall l :: l in out <==> l in ls && Produced(l)
  {
    if ls == [] then []
    else
      var l := ls[|ls| - 1];
      var rest := Kept(ls[..|ls| - 1]);
      assert ls == ls[..|ls| - 1] + [l];
      if Produced(l) then rest + [l] else rest
  }

  function RouteConfigs(env: Env, lk: Linked, cs: ConfigSet, ls: seq<Config.Listener>): seq<RouteConfig> {
    if ls == [] then []
    else
      var l := ls[|ls| - 1];
      RouteConfigs(env, lk, cs, ls[..|ls| - 1]) + if l.protocol.IsHttp() then [RouteConfigOf(env, lk, cs, l)] else []
  }

  ghost predicate AllBuildable(cs: ConfigSet, ls: seq<Config.Listener>) {
    forall l :: l in ls ==> Buildable(cs, l)
  }

  ghost predicate BuiltAll(env: Env, lk: Linked, cs: ConfigSet, kept: seq<Config.Listener>, ls: seq<Envoy.Listener>)
    requires AllBuildable(cs, kept)
    reads ChainsOf(ls), AllFilters(ls)
  {
    |ls| == |kept| && forall i :: 0 <= i < |ls| ==> Built(ls[i], ViewOf(env, lk, cs, kept[i]))
  }

  ghost predicate ListenerOk(env: Env, lk: Linked, cs: ConfigSet, l: Config.Listener) {
    l.protocol.IsHttp() ==> HttpOk(env, lk, cs, l)
  }

  /** The external authorization clusters that a listener's connection manager names. */
  ghost predicate AuthClustersIn(env: Env, lk: Linked, cs: ConfigSet, l: Config.Listener, names: set<string>) {
    l.protocol.IsHttp() ==> forall f :: f in HcmOf(env, lk, cs, l).httpFilters && f.ExtAuthz? ==> f.cluster in names
  }

  method BuildOne(env: Env, lk: Linked, cs: ConfigSet, l: Config.Listener, ctx: BuildContext)
    returns (lis: Envoy.Listener?, rc: Option<RouteConfig>, errs: seq<CompileError>)
    requires Buildable(cs, l) && ctx.Valid()
    modifies ctx
    ensures ctx.Valid() && old(ctx.extAuth).Keys <= ctx.extAuth.Keys
    ensures AllAt(errs, BuildStage)
    ensures errs == [] <==> ListenerOk(env, lk, cs, l)
    ensures errs == [] ==> (lis != null <==> Produced(l))
    ensures lis != null ==> fresh(lis) && fresh(set c | c in lis.chains) && fresh(FiltersOf(lis))
    ensures lis != null && errs == [] ==> Built(lis, ViewOf(env, lk, cs, l))
    ensures errs == [] ==> rc == if l.protocol.IsHttp() then Some(RouteConfigOf(env, lk, cs, l)) else None
    ensures errs == [] ==>
      ctx.extAuth == old(ctx.extAuth) + if l.protocol.IsHttp() then AuthOn(env, WantedOn(lk, cs, l)) else map[]
  {
    hide Built, HttpOk, FiltersOf, ViewOf, RouteConfigOf, HcmOf, AuthOn;
    if l.protocol.IsHttp() {
      var config;
      lis, config, errs := BuildHttpListener(env, lk, cs, l, ctx);
      rc := Some(config);
    } else {
      lis := BuildL4Listener(env, lk, cs, l);
      rc, errs := None, [];
    }
  }

  /** A listener that wants authorization finds its cluster among those of all listeners. */
  lemma {:induction false} AuthListed(env: Env, lk: Linked, cs: ConfigSet, ls: seq<Config.Listener>, l: Config.Listener)
    requires l in ls && l.protocol.IsHttp() && WantedOn(lk, cs, l) != [] && !WantedOn(lk, cs, l)[0].service.NoService?
    ensures AuthCluster(env, WantedOn(lk, cs, l)[0]).name in AuthClusters(env, lk, cs, ls)
  {
    hide WantedOn, AuthCluster;
    var last := |ls| - 1;
    if l != ls[last] {
      AuthListed(env, lk, cs, ls[..last], l);
    }
  }

  /** Every external authorization cluster is that of some listener's provider, under its own name. */
  lemma {:induction false} AuthComesFrom(env: Env, lk: Linked, cs: ConfigSet, ls: seq<Config.Listener>,
      n: string) returns (l: Config.Listener)
    requires n in AuthClusters(env, lk, cs, ls)
    ensures l in ls && l.protocol.IsHttp() && WantedOn(lk, cs, l) != [] && !WantedOn(lk, cs, l)[0].service.NoService?
    ensures AuthClusters(env, lk, cs, ls)[n] == AuthCluster(env, WantedOn(lk, cs, l)[0])
    ensures n == AuthCluster(env, WantedOn(lk, cs, l)[0]).name
  {
    hide WantedOn, AuthCluster;
    var last := |ls| - 1;
    l := ls[last];
    if !(l.protocol.IsHttp() && n in AuthOn(env, WantedOn(lk, cs, l))) {
      l := AuthComesFrom(env, lk, cs, ls[..last], n);
    }
  }

  lemma AuthClustersKnown(env: Env, lk: Linked, cs: ConfigSet, ls: seq<Config.Listener>, l: Config.Listener)
    requires l in ls && ListenerOk(env, lk, cs, l)
    ensures AuthClustersIn(env, lk, cs, l, AuthClusters(env, lk, cs, ls).Keys)
  {
    hide WantedOn, AuthClusters, RoutesOk, CertificatesOk;
    if l.protocol.IsHttp() {
      var ps := WantedOn(lk, cs, l);
      AuthFilterPresent(env, ps);
      if ps != [] {
        assert OneProvider(ps);
        AuthListed(env, lk, cs, ls, l);
      }
    }
  }

  lemma SeparateGrows(ls: seq<Envoy.Listener>, lis: Envoy.Listener)
    requires Separate(ls) && DistinctChains(lis)
    requires forall i, c :: 0 <= i < |ls| && c in ls[i].chains ==> c !in lis.chains
    requires forall i :: 0 <= i < |ls| ==> FiltersOf(ls[i]) !! FiltersOf(lis)
    ensures Separate(ls + [lis])
  {
  }

  lemma ChainsGrow(ls: seq<Envoy.Listener>, lis: Envoy.Listener)
    ensures ChainsOf(ls + [lis]) <= ChainsOf(ls) + set c | c in lis.chains
    ensures AllFilters(ls + [lis]) <= AllFilters(ls) + FiltersOf(lis)
  {
    var all := ls + [lis];
    forall c | c in ChainsOf(all) ensures c in ChainsOf(ls) + set c | c in lis.chains {
      var i, k :| 0 <= i < |all| && 0 <= k < |all[i].chains| && all[i].chains[k] == c;
      assert all[i] == if i < |ls| then ls[i] else lis;
    }
    forall f | f in AllFilters(all) ensures f in AllFilters(ls) + FiltersOf(lis) {
      var i, k, j :| && 0 <= i < |all| && 0 <= k < |all[i].chains| && 0 <= j < |all[i].chains[k].filters|
                     && all[i].chains[k].filters[j] == f;
      assert all[i] == if i < |ls| then ls[i] else lis;
      assert f in FiltersOf(all[i]);
    }
  }

  lemma BuiltGrows(env: Env, lk: Linked, cs: ConfigSet, kept: seq<Config.Listener>, ls: seq<Envoy.Listener>,
      l: Config.Listener, lis: Envoy.Listener)
    requires AllBuildable(cs, kept + [l]) && AllBuildable(cs, kept) && BuiltAll(env, lk, cs, kept, ls)
    requires Buildable(cs, l) && Built(lis, ViewOf(env, lk, cs, l))
    ensures BuiltAll(env, lk, cs, kept + [l], ls + [lis])
  {
    hide Built, ViewOf;
    forall i | 0 <= i < |ls + [lis]| ensures Built((ls + [lis])[i], ViewOf(env, lk, cs, (kept + [l])[i])) {
      if i < |ls| {
        assert Built(ls[i], ViewOf(env, lk, cs, kept[i]));
      }
    }
  }

  /** What the listener loop has built so far from the sorted listeners done. */
  ghost predicate Progress(env: Env, lk: Linked, cs: ConfigSet, done: seq<Config.Listener>, ls: seq<Envoy.Listener>,
      routes: seq<RouteConfig>, auth: map<string, ClusterView>)
    requires AllBuildable(cs, done)
    reads ChainsOf(ls), AllFilters(ls)
  {
    && BuiltAll(env, lk, cs, Kept(done), ls) && Separate(ls)
    && routes == RouteConfigs(env, lk, cs, Kept(done))
    && auth == AuthClusters(env, lk, cs, done)
  }

  lemma ProgressGrows(env: Env, lk: Linked, cs: ConfigSet, done: seq<Config.Listener>, ls: seq<Envoy.Listener>,
      routes: seq<RouteConfig>,
                      auth: map<string, ClusterView>, l: Config.Listener, lis: Envoy.Listener?)
    requires AllBuildable(cs, done + [l]) && AllBuildable(cs, done) && Progress(env, lk, cs, done, ls, routes, auth)
    requires lis != null <==> Produced(l)
    requires lis != null ==> Buildable(cs, l) && Built(lis, ViewOf(env, lk, cs, l)) && Separate(ls + [lis])
    ensures Progress(env, lk, cs, done + [l], if lis == null then ls else ls + [lis],
                     if lis == null || !l.protocol.IsHttp() then routes else routes + [RouteConfigOf(env, lk, cs, l)],
                     auth + if l.protocol.IsHttp() then AuthOn(env, WantedOn(lk, cs, l)) else map[])
  {
    hide BuiltAll, Built, ViewOf, HcmOf, RouteConfigOf, Separate, AuthOn, WantedOn, Kept, RouteConfigs, AuthClusters;
    OneMoreListener(env, lk, cs, done, l);
    if lis != null {
      BuiltGrows(env, lk, cs, Kept(done), ls, l, lis);
      RouteConfigsGrow(env, lk, cs, Kept(done), l);
      assert routes + [] == routes;
    } else {
      assert Kept(done) + [] == Kept(done);
    }
  }

  lemma OneMoreListener(env: Env, lk: Linked, cs: ConfigSet, done: seq<Config.Listener>, l: Config.Listener)
    ensures Kept(done + [l]) == Kept(done) + if Produced(l) then [l] else []
    ensures AuthClusters(env, lk, cs, done + [l])
         == AuthClusters(env, lk, cs, done) + if l.protocol.IsHttp() then AuthOn(env, WantedOn(lk, cs, l)) else map[]
  {
    hide AuthOn, WantedOn;
    assert (done + [l])[..|done|] == done;
  }

  lemma RouteConfigsGrow(env: Env, lk: Linked, cs: ConfigSet, kept: seq<Config.Listener>, l: Config.Listener)
    ensures RouteConfigs(env, lk, cs, kept + [l])
            == RouteConfigs(env, lk, cs, kept) + if l.protocol.IsHttp() then [RouteConfigOf(env, lk, cs, l)] else []
  {
    hide RouteConfigOf;
    assert (kept + [l])[..|kept|] == kept;
  }

  lemma BuiltIsDistinct(lis: Envoy.Listener, v: ListenerView)
    requires Built(lis, v)
    ensures DistinctChains(lis)
  {
  }

  lemma NoProgress(env: Env, lk: Linked, cs: ConfigSet)
    ensures Progress(env, lk, cs, [], [], [], map[])
  {
  }

  lemma ProgressIsSeparate(env: Env, lk: Linked, cs: ConfigSet, done: seq<Config.Listener>, ls: seq<Envoy.Listener>,
      routes: seq<RouteConfig>, auth: map<string, ClusterView>)
    requires AllBuildable(cs, done) && Progress(env, lk, cs, done, ls, routes, auth)
    ensures Separate(ls)
  {
  }

  method BuildAllListeners(env: Env, lk: Linked, cs: ConfigSet, ctx: BuildContext)
    returns (ls: seq<Envoy.Listener>, routes: seq<RouteConfig>, errs: seq<CompileError>)
    requires AllBuildable(cs, SortedListeners(cs)) && ctx.extAuth == map[]
    modifies ctx
    ensures ctx.Valid()
    ensures AllAt(errs, BuildStage)
    ensures errs == [] <==> forall l :: l in SortedListeners(cs) ==> ListenerOk(env, lk, cs, l)
    ensures fresh(ChainsOf(ls)) && fresh(AllFilters(ls))
    ensures errs == [] ==> Progress(env, lk, cs, SortedListeners(cs), ls, routes, ctx.extAuth)
  {
    hide Progress, ListenerOk, Built, Produced, Separate, ViewOf, RouteConfigOf, AuthOn, WantedOn, Sorting.Sort;
    ls, routes, errs := [], [], [];
    var sorted := SortedListeners(cs);
    NoProgress(env, lk, cs);
    assert sorted[..0] == [];
    for k := 0 to |sorted|
      invariant ctx.Valid()
      invariant AllAt(errs, BuildStage)
      invariant errs == [] <==> forall l :: l in sorted[..k] ==> ListenerOk(env, lk, cs, l)
      invariant fresh(ChainsOf(ls)) && fresh(AllFilters(ls))
      invariant errs == [] ==> Progress(env, lk, cs, sorted[..k], ls, routes, ctx.extAuth)
    {
      var l := sorted[k];
      assert sorted[..k + 1] == sorted[..k] + [l];
      ghost var auth := ctx.extAuth;
      var lis, rc, lerrs := BuildOne(env, lk, cs, l, ctx);
      if errs + lerrs == [] {
        if lis != null {
          ProgressIsSeparate(env, lk, cs, sorted[..k], ls, routes, auth);
          BuiltIsDistinct(lis, ViewOf(env, lk, cs, l));
          SeparateGrows(ls, lis);
        }
        ProgressGrows(env, lk, cs, sorted[..k], ls, routes, auth, l, lis);
      }
      errs := errs + lerrs;
      if lis != null {
        ChainsGrow(ls, lis);
        ls := ls + [lis];
        if rc.Some? {
          routes := routes + [rc.value];
        }
      }
    }
    assert sorted[..|sorted|] == sorted;
  }

  // Clusters

  function UpstreamLe(x: Upstream, y: Upstream): bool { Le(x.name, y.name) }
  function ClusterLe(x: ClusterView, y: ClusterView): bool { Le(x.name, y.name) }
  function NameOf(c: ClusterView): string { c.name }

  function UpstreamCluster(u: Upstream): ClusterView
    requires !u.source.KubernetesService?
  {
    var name := Names.Cluster(u.name);
    match u.source
    case Endpoints(es) => ClusterView(name, Static, Some(LoadAssignment(name, es)), false)
    case Dns(host, port, strict) =>
      var assignment := LoadAssignment(name, [Endpoint(host, port, None)]);
      ClusterView(name, if strict then StrictDns else LogicalDns, Some(assignment), false)
  }

  ghost predicate NoKubernetes(us: seq<Upstream>) {
    forall u :: u in us ==> !u.source.KubernetesService?
  }

  /** The clusters of the upstreams us, in order. */
  ghost predicate ClustersFor(us: seq<Upstream>, cvs: seq<ClusterView>) {
    |cvs| == |us| && forall i :: 0 <= i < |us| ==> !us[i].source.KubernetesService? && cvs[i] == UpstreamCluster(us[i])
  }

  method BuildUpstreams(us: seq<Upstream>) returns (cvs: seq<ClusterView>, errs: seq<CompileError>)
    ensures AllAt(errs, BuildStage)
    ensures errs == [] <==> NoKubernetes(us)
    ensures errs == [] ==> ClustersFor(us, cvs)
  {
    cvs, errs := [], [];
    for i := 0 to |us|
      invariant AllAt(errs, BuildStage)
      invariant errs == [] <==> NoKubernetes(us[..i])
      invariant errs == [] ==> ClustersFor(us[..i], cvs)
    {
      var u := us[i];
      assert us[..i + 1] == us[..i] + [u];
      if u.source.KubernetesService? {
        errs := errs + [BuildError(u.name, "spec.kubernetesService")];
      } else {
        cvs := cvs + [UpstreamCluster(u)];
      }
    }
    assert us[..|us|] == us;
  }

  /** A map's clusters appended in some order. */
  method AppendClusters(cvs: seq<ClusterView>, more: map<string, ClusterView>) returns (all: seq<ClusterView>)
    requires Sorting.DistinctBy(cvs, NameOf)
    requires forall n :: n in more ==> more[n].name == n && forall c :: c in cvs ==> c.name != n
    ensures Sorting.DistinctBy(all, NameOf)
    ensures forall c :: c in all <==> c in cvs || (c.name in more && more[c.name] == c)
  {
    all := cvs;
    var todo := more.Keys;
    while todo != {}
      invariant todo <= more.Keys && Sorting.DistinctBy(all, NameOf)
      invariant forall c :: c in all <==> c in cvs || (c.name in more && c.name !in todo && more[c.name] == c)
    {
      var n :| n in todo;
      assert forall c :: c in all ==> c.name != n;
      all, todo := all + [more[n]], todo - {n};
    }
  }

  method AllocateClusters(cvs: seq<ClusterView>) returns (cs: seq<Cluster>)
    ensures ShowClusters(cs, cvs) && Sorting.Distinct(cs) && fresh(set c | c in cs)
  {
    cs := [];
    for i := 0 to |cvs|
      invariant |cs| == i && Sorting.Distinct(cs) && fresh(set c | c in cs)
      invariant forall k :: 0 <= k < i ==> View(cs[k]) == cvs[k]
    {
      var c := new Cluster(cvs[i].name, cvs[i].discovery, cvs[i].assignment, cvs[i].edsConfig);
      cs := cs + [c];
    }
  }

  /** The cluster set of a configuration: one per upstream, and the external authorization clusters. */
  ghost predicate ClusterSet(cs: ConfigSet, auth: map<string, ClusterView>, cvs: seq<ClusterView>) {
    && Sorting.DistinctBy(cvs, NameOf) && NoKubernetes(cs.upstreams)
    && (forall u :: u in cs.upstreams ==> UpstreamCluster(u) in cvs)
    && (forall n :: n in auth ==> auth[n] in cvs)
    && (forall c :: c in cvs ==>
           (exists u :: u in cs.upstreams && c == UpstreamCluster(u)) || (c.name in auth && auth[c.name] == c))
  }

  lemma UpstreamNamesDistinct(cs: ConfigSet, us: seq<Upstream>, cvs: seq<ClusterView>)
    requires WellFormed(cs) && us == Sorting.Sort(cs.upstreams, UpstreamLe) && ClustersFor(us, cvs)
    ensures Sorting.DistinctBy(cvs, NameOf)
    ensures NoKubernetes(cs.upstreams)
    ensures forall c :: c in cvs <==> exists u :: u in cs.upstreams && c == UpstreamCluster(u)
  {
    var key := (u: Upstream) => u.name;
    Sorting.SortKeepsDistinctBy(cs.upstreams, UpstreamLe, key);
    Sorting.SortPermutes(cs.upstreams, UpstreamLe);
    forall i, j | 0 <= i < j < |cvs| ensures NameOf(cvs[i]) != NameOf(cvs[j]) {
      assert key(us[i]) != key(us[j]);
      Names.PrefixesInjective(us[i].name, us[j].name);
    }
    forall u | u in cs.upstreams ensures !u.source.KubernetesService? && UpstreamCluster(u) in cvs {
      assert u in us;
      var i :| 0 <= i < |us| && us[i] == u;
      assert cvs[i] == UpstreamCluster(u);
    }
    forall c | c in cvs ensures exists u :: u in cs.upstreams && c == UpstreamCluster(u) {
      var i :| 0 <= i < |cvs| && cvs[i] == c;
      assert us[i] in cs.upstreams;
    }
  }

  lemma UpstreamsAvoidAuth(cvs: seq<ClusterView>, cs: ConfigSet, auth: map<string, ClusterView>)
    requires NoKubernetes(cs.upstreams)
    requires forall c :: c in cvs ==> exists u :: u in cs.upstreams && c == UpstreamCluster(u)
    requires forall n :: n in auth ==> AuthClusterShape(n, auth[n])
    ensures forall n, c :: n in auth && c in cvs ==> c.name != n
  {
    forall n, c | n in auth && c in cvs ensures c.name != n {
      var u :| u in cs.upstreams && c == UpstreamCluster(u);
      assert AuthClusterShape(n, auth[n]);
      var d :| n == Names.ExtAuthCluster(d);
      Names.PrefixesInjective(u.name, d);
    }
  }

  method BuildAllClusters(cs: ConfigSet, ctx: BuildContext) returns (clusters: seq<Cluster>, errs: seq<CompileError>,
      ghost cvs: seq<ClusterView>)
    requires WellFormed(cs) && ctx.Valid()
    ensures AllAt(errs, BuildStage)
    ensures errs == [] <==> NoKubernetes(cs.upstreams)
    ensures fresh(set c | c in clusters)
    ensures errs == [] ==> ShowClusters(clusters, cvs) && Sorting.Distinct(clusters) && ClusterSet(cs, ctx.extAuth, cvs)
  {
    hide UpstreamCluster, Sorting.Sort, AuthClusterShape;
    var us := Sorting.Sort(cs.upstreams, UpstreamLe);
    Sorting.SortPermutes(cs.upstreams, UpstreamLe);
    var ups;
    ups, errs := BuildUpstreams(us);
    clusters, cvs := [], [];
    if errs == [] {
      UpstreamNamesDistinct(cs, us, ups);
      UpstreamsAvoidAuth(ups, cs, ctx.extAuth);
      AuthNamed(ctx);
      var all := AppendClusters(ups, ctx.extAuth);
      var sorted := Sorting.Sort(all, ClusterLe);
      Sorting.SortPermutes(all, ClusterLe);
      Sorting.SortKeepsDistinctBy(all, ClusterLe, NameOf);
      cvs := sorted;
      clusters := AllocateClusters(sorted);
    }
  }

  lemma AuthNamed(ctx: BuildContext)
    requires ctx.Valid()
    ensures forall n :: n in ctx.extAuth ==> ctx.extAuth[n].name == n
  {
  }
}
