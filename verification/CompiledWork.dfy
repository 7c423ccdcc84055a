/** The link checks make every work set that stages F3 and F4 compile from a configuration tidy. */
module CompiledWork {
  import opened Text
  import opened Config
  import opened Link
  import opened LinkL4
  import opened LinkHostnames
  import opened Envoy
  import opened Policies
  import opened Shaping
  import opened BuildValues
  import opened BuildRoutes
  import opened ListenerValues
  import opened Build
  import opened Synthesis
  import opened ModeEquivalence
  import opened CompiledSecrets
  import opened WorkSet
  import opened TidyWork
  import opened Materialize
  import opened BuildListeners
  import Names
  import Sorting

  /** What stage F2 establishes. */
  ghost predicate LinkOk(lk: Linked, cs: ConfigSet) {
    && Indexes(lk, cs) && NoDanglingReference(lk, cs) && (forall r :: r in cs.routes ==> RouteFormOk(lk, r))
    && L4ConstraintsOk(cs) && NoHostnameConflict(lk, cs) && TlsRulesOk(cs)
  }

  ghost function KeptListeners(cs: ConfigSet): seq<Config.Listener> {
    Kept(SortedListeners(cs))
  }

  ghost function ViewsOf(env: Env, lk: Linked, cs: ConfigSet, kept: seq<Config.Listener>): seq<ListenerView>
    requires AllBuildable(cs, kept)
  {
    seq(|kept|, i requires 0 <= i < |kept| => ViewOf(env, lk, cs, kept[i]))
  }

  /** w is the work set of the configuration, with the external authorization clusters auth. */
  ghost predicate CompiledFrom(env: Env, lk: Linked, cs: ConfigSet, auth: map<string, ClusterView>, w: WorkView) {
    && AllBuildable(cs, KeptListeners(cs))
    && w.listeners == ViewsOf(env, lk, cs, KeptListeners(cs))
    && w.routes == RouteConfigs(env, lk, cs, KeptListeners(cs))
    && auth == AuthClusters(env, lk, cs, SortedListeners(cs)) && ClusterSet(cs, auth, w.clusters)
    && (forall n :: n in auth ==> AuthClusterShape(n, auth[n]))
    && (forall l :: l in KeptListeners(cs) ==> AuthClustersIn(env, lk, cs, l, auth.Keys))
    && w.endpoints == [] && w.secrets == AllSecrets(w.listeners)
    && w.compiledListeners == (set v | v in w.listeners :: v.name)
    && w.compiledSecrets == (set s | s in w.secrets :: s.name)
  }

  // Names

  lemma {:induction false} KeptKeepsDistinct(ls: seq<Config.Listener>, name: Config.Listener -> string)
    requires Sorting.DistinctBy(ls, name)
    ensures Sorting.DistinctBy(Kept(ls), name)
  {
    if ls != [] {
      var l, rest := ls[|ls| - 1], ls[..|ls| - 1];
      KeptKeepsDistinct(rest, name);
      forall m | m in rest ensures name(m) != name(l) {
        var i :| 0 <= i < |rest| && rest[i] == m;
        assert ls[i] == m;
      }
    }
  }

  function NameOfListener(l: Config.Listener): string { l.name }

  lemma NameIsIndex(ls: seq<Config.Listener>, i: nat, j: nat)
    requires Sorting.DistinctBy(ls, NameOfListener) && i < |ls| && j < |ls| && ls[i].name == ls[j].name
    ensures i == j
  {
    assert NameOfListener(ls[i]) == NameOfListener(ls[j]);
  }

  lemma KeptNames(cs: ConfigSet)
    requires WellFormed(cs)
    ensures Sorting.DistinctBy(KeptListeners(cs), NameOfListener)
    ensures forall l :: l in KeptListeners(cs) ==> l in cs.listeners && Produced(l)
    ensures forall l :: l in cs.listeners && Produced(l) ==> l in KeptListeners(cs)
  {
    Sorting.SortPermutes(cs.listeners, ListenerLe);
    assert Sorting.DistinctBy(cs.listeners, NameOfListener);
    Sorting.SortKeepsDistinctBy(cs.listeners, ListenerLe, NameOfListener);
    KeptKeepsDistinct(SortedListeners(cs), NameOfListener);
  }

  lemma ViewNamed(env: Env, lk: Linked, cs: ConfigSet, l: Config.Listener)
    requires Buildable(cs, l)
    ensures ViewOf(env, lk, cs, l).name == Names.Listener(l.name)
    ensures Owner(ViewOf(env, lk, cs, l)) == l.name
  {
    Names.ListenerNameTrims(l.name);
  }

  lemma ViewsUnique(env: Env, lk: Linked, cs: ConfigSet, kept: seq<Config.Listener>)
    requires AllBuildable(cs, kept) && Sorting.DistinctBy(kept, NameOfListener)
    ensures Unique(ViewsOf(env, lk, cs, kept), ListenerName)
  {
    hide ViewOf;
    var vs := ViewsOf(env, lk, cs, kept);
    forall i, j | 0 <= i < |vs| && 0 <= j < |vs| && ListenerName(vs[i]) == ListenerName(vs[j]) ensures i == j {
      ViewNamed(env, lk, cs, kept[i]);
      ViewNamed(env, lk, cs, kept[j]);
      Names.PrefixesInjective(kept[i].name, kept[j].name);
      NameIsIndex(kept, i, j);
    }
  }

  // Route configurations

  lemma {:induction false} RouteConfigHasListener(env: Env, lk: Linked, cs: ConfigSet, kept: seq<Config.Listener>,
      k: nat) returns (i: nat)
    requires k < |RouteConfigs(env, lk, cs, kept)|
    ensures i < |kept| && kept[i].protocol.IsHttp()
    ensures RouteConfigs(env, lk, cs, kept)[k] == RouteConfigOf(env, lk, cs, kept[i])
    ensures k == |RouteConfigs(env, lk, cs, kept[..i])|
  {
    hide RouteConfigOf;
    var l, rest := kept[|kept| - 1], kept[..|kept| - 1];
    if k < |RouteConfigs(env, lk, cs, rest)| {
      i := RouteConfigHasListener(env, lk, cs, rest, k);
      assert rest[..i] == kept[..i];
    } else {
      i := |kept| - 1;
    }
  }

  lemma {:induction false} ListenerHasRouteConfig(env: Env, lk: Linked, cs: ConfigSet, kept: seq<Config.Listener>,
      i: nat)
    requires i < |kept| && kept[i].protocol.IsHttp()
    ensures RouteConfigOf(env, lk, cs, kept[i]) in RouteConfigs(env, lk, cs, kept)
  {
    hide RouteConfigOf;
    if i < |kept| - 1 {
      ListenerHasRouteConfig(env, lk, cs, kept[..|kept| - 1], i);
    }
  }

  lemma RouteConfigsUnique(env: Env, lk: Linked, cs: ConfigSet, kept: seq<Config.Listener>)
    requires Sorting.DistinctBy(kept, NameOfListener)
    ensures Unique(RouteConfigs(env, lk, cs, kept), RouteName)
  {
    hide RoutesOf, WantedOn, FinalVhost, RawVhost, RouteConfigs;
    var rcs := RouteConfigs(env, lk, cs, kept);
    forall k, m | 0 <= k < |rcs| && 0 <= m < |rcs| && RouteName(rcs[k]) == RouteName(rcs[m]) ensures k == m {
      var i := RouteConfigHasListener(env, lk, cs, kept, k);
      var j := RouteConfigHasListener(env, lk, cs, kept, m);
      Names.PrefixesInjective(kept[i].name, kept[j].name);
      NameIsIndex(kept, i, j);
    }
  }

  lemma RouteFoundFor(env: Env, lk: Linked, cs: ConfigSet, kept: seq<Config.Listener>, i: nat)
    requires Sorting.DistinctBy(kept, NameOfListener) && i < |kept| && kept[i].protocol.IsHttp()
    ensures FindRoute(RouteConfigs(env, lk, cs, kept), Names.RouteConfig(kept[i].name))
            == Some(RouteConfigOf(env, lk, cs, kept[i]))
  {
    hide RoutesOf, WantedOn, FinalVhost, RawVhost, RouteConfigs;
    var rcs, rc := RouteConfigs(env, lk, cs, kept), RouteConfigOf(env, lk, cs, kept[i]);
    ListenerHasRouteConfig(env, lk, cs, kept, i);
    var f := FindRoute(rcs, rc.name);
    RouteConfigsUnique(env, lk, cs, kept);
    var a :| 0 <= a < |rcs| && rcs[a] == rc;
    var b :| 0 <= b < |rcs| && rcs[b] == f.value;
    assert RouteName(rcs[a]) == RouteName(rcs[b]);
  }

  // Clusters

  lemma UpstreamPresent(lk: Linked, cs: ConfigSet, auth: map<string, ClusterView>, w: WorkView, upstream: string)
    requires Indexes(lk, cs) && ClusterSet(cs, auth, w.clusters) && upstream in lk.upstreams
    ensures HasCluster(w, Names.Cluster(upstream))
  {
    var u := lk.upstreams[upstream];
    assert u in cs.upstreams && UpstreamCluster(u) in w.clusters;
    var i :| 0 <= i < |w.clusters| && w.clusters[i] == UpstreamCluster(u);
    assert w.clusters[i].name == Names.Cluster(upstream);
  }

  lemma AuthPresent(cs: ConfigSet, auth: map<string, ClusterView>, w: WorkView, n: string)
    requires ClusterSet(cs, auth, w.clusters) && n in auth && AuthClusterShape(n, auth[n])
    ensures HasCluster(w, n)
  {
    assert auth[n] in w.clusters;
    var i :| 0 <= i < |w.clusters| && w.clusters[i] == auth[n];
  }

  lemma ClustersTidy(cs: ConfigSet, auth: map<string, ClusterView>, w: WorkView)
    requires ClusterSet(cs, auth, w.clusters) && forall n :: n in auth ==> AuthClusterShape(n, auth[n])
    ensures Unique(w.clusters, ClusterName)
    ensures forall i :: 0 <= i < |w.clusters| ==> TidyCluster(w.clusters[i])
  {
    forall i, j |
      0 <= i < |w.clusters| && 0 <= j < |w.clusters| && ClusterName(w.clusters[i]) == ClusterName(w.clusters[j])
      ensures i == j
    {
      assert i < j ==> NameOf(w.clusters[i]) != NameOf(w.clusters[j]);
      assert j < i ==> NameOf(w.clusters[j]) != NameOf(w.clusters[i]);
    }
    forall i | 0 <= i < |w.clusters| ensures TidyCluster(w.clusters[i]) {
      var c := w.clusters[i];
      assert c in w.clusters;
      if u :| u in cs.upstreams && c == UpstreamCluster(u) {
        assert !u.source.KubernetesService?;
      } else {
        assert AuthClusterShape(c.name, auth[c.name]);
      }
    }
  }

  // Listeners

  lemma ViewTidy(env: Env, lk: Linked, cs: ConfigSet, l: Config.Listener)
    requires Buildable(cs, l) && Names.Simple(l.name)
    ensures TidyListener(ViewOf(env, lk, cs, l))
  {
    hide HcmOf, Specs, ForwardsOf;
    ViewNamed(env, lk, cs, l);
  }

  lemma ForwardResolves(lk: Linked, cs: ConfigSet, auth: map<string, ClusterView>, w: WorkView, l: Config.Listener,
      r: Config.Route)
    requires LinkOk(lk, cs) && ClusterSet(cs, auth, w.clusters) && r in ForwardsOf(cs, l)
    ensures HasCluster(w, ClusterFor(r))
  {
    hide ClusterSet, L4ConstraintsOk, NoHostnameConflict;
    Sorting.SortPermutes(cs.routes, RouteLe);
    assert r in cs.routes && RouteResolves(lk, r);
    UpstreamPresent(lk, cs, auth, w, r.forward.value.upstream);
  }

  lemma HcmResolves(env: Env, lk: Linked, cs: ConfigSet, auth: map<string, ClusterView>, w: WorkView, i: nat)
    requires WellFormed(cs) && CompiledFrom(env, lk, cs, auth, w) && i < |KeptListeners(cs)|
    requires KeptListeners(cs)[i].protocol.IsHttp()
    ensures HcmRefers(w, HcmOf(env, lk, cs, KeptListeners(cs)[i]))
  {
    hide WellFormed, HttpFilters, WantedOn, ClusterSet, ViewsOf, RouteConfigs, RouteConfigOf, AuthClusterShape,
      KeptListeners;
    var kept := KeptListeners(cs);
    KeptNames(cs);
    RouteFoundFor(env, lk, cs, kept, i);
    var h := HcmOf(env, lk, cs, kept[i]);
    assert AuthClustersIn(env, lk, cs, kept[i], auth.Keys);
    forall f | f in h.httpFilters && f.ExtAuthz? ensures HasCluster(w, f.cluster) {
      AuthPresent(cs, auth, w, f.cluster);
    }
  }

  lemma L4ViewRefers(env: Env, lk: Linked, cs: ConfigSet, auth: map<string, ClusterView>, w: WorkView,
      l: Config.Listener)
    requires LinkOk(lk, cs) && ClusterSet(cs, auth, w.clusters) && Buildable(cs, l) && !l.protocol.IsHttp()
    ensures ListenerRefers(w, ViewOf(env, lk, cs, l))
  {
    hide LinkOk, ClusterSet, HasCluster, ForwardsOf, Specs;
    var v := ViewOf(env, lk, cs, l);
    var fs := ForwardsOf(cs, l);
    if l.protocol.TLS? {
      forall i, j | 0 <= i < |v.chains| && 0 <= j < |v.chains[i].filters|
        ensures FilterRefers(w, v.chains[i].filters[j])
      {
        SpecsAre(fs, i);
        ForwardResolves(lk, cs, auth, w, l, Specs(fs)[i].route);
      }
    } else {
      ForwardResolves(lk, cs, auth, w, l, fs[0]);
    }
  }

  lemma HttpViewRefers(env: Env, lk: Linked, cs: ConfigSet, w: WorkView, l: Config.Listener)
    requires Buildable(cs, l) && l.protocol.IsHttp() && HcmRefers(w, HcmOf(env, lk, cs, l))
    ensures ListenerRefers(w, ViewOf(env, lk, cs, l))
  {
    hide HcmRefers, HcmOf;
  }

  lemma RuleResolved(lk: Linked, cs: ConfigSet, auth: map<string, ClusterView>, w: WorkView, rule: Rule, c: string)
    requires Indexes(lk, cs) && ClusterSet(cs, auth, w.clusters) && RuleResolves(lk, rule)
    requires c in ActionOf(rule.action).Clusters()
    ensures HasCluster(w, c)
  {
    hide ClusterSet, Indexes;
    var bs := rule.action.backends;
    var a := ActionOf(rule.action);
    if a.ToWeighted? {
      var i :| 0 <= i < |a.Clusters()| && a.Clusters()[i] == c;
      assert c == Names.Cluster(bs[i].upstream) && bs[i] in bs;
      UpstreamPresent(lk, cs, auth, w, bs[i].upstream);
    } else {
      assert c == Names.Cluster(bs[0].upstream) && bs[0] in bs;
      UpstreamPresent(lk, cs, auth, w, bs[0].upstream);
    }
  }

  lemma RouteConfigRefers(env: Env, lk: Linked, cs: ConfigSet, auth: map<string, ClusterView>, w: WorkView,
      l: Config.Listener)
    requires LinkOk(lk, cs) && ClusterSet(cs, auth, w.clusters)
    ensures RouteRefers(w, RouteConfigOf(env, lk, cs, l))
  {
    hide LinkOk, ClusterSet, HasCluster, EffectiveOn, TypedPerFilterConfig, WantedOn, RoutesOf, FinalPerFilter,
      ActionOf, RuleResolves, Indexes;
    var rc := RouteConfigOf(env, lk, cs, l);
    var rs := RoutesOf(cs, l);
    forall v, r, c | v in rc.vhosts && r in v.routes && c in r.action.Clusters() ensures HasCluster(w, c) {
      var k :| 0 <= k < |rc.vhosts| && rc.vhosts[k] == v;
      var i :| 0 <= i < |v.routes| && v.routes[i] == r;
      var rule := rs[k].rules[i];
      assert r.action == ActionOf(rule.action);
      RuleOfAttached(lk, cs, l, rs[k], rule);
      RuleResolved(lk, cs, auth, w, rule, c);
    }
  }

  lemma RuleOfAttached(lk: Linked, cs: ConfigSet, l: Config.Listener, r: Config.Route, rule: Rule)
    requires LinkOk(lk, cs) && r in RoutesOf(cs, l) && rule in r.rules
    ensures Indexes(lk, cs) && RuleResolves(lk, rule)
  {
    hide L4ConstraintsOk, NoHostnameConflict, Indexes;
    Sorting.SortPermutes(cs.routes, RouteLe);
    assert r in cs.routes && RouteResolves(lk, r);
  }

  lemma CompiledRefers(env: Env, lk: Linked, cs: ConfigSet, auth: map<string, ClusterView>, w: WorkView)
    requires WellFormed(cs) && LinkOk(lk, cs) && CompiledFrom(env, lk, cs, auth, w)
    ensures Refers(w)
  {
    hide WellFormed, LinkOk, ListenerRefers, RouteRefers, ViewOf, RouteConfigOf, HcmOf, KeptListeners, RouteConfigs,
      ClusterSet, HcmRefers, Buildable, AuthClustersIn;
    var kept := KeptListeners(cs);
    forall i | 0 <= i < |w.listeners| ensures ListenerRefers(w, w.listeners[i]) {
      assert kept[i] in kept;
      if kept[i].protocol.IsHttp() {
        HcmResolves(env, lk, cs, auth, w, i);
        HttpViewRefers(env, lk, cs, w, kept[i]);
      } else {
        L4ViewRefers(env, lk, cs, auth, w, kept[i]);
      }
    }
    forall k | 0 <= k < |w.routes| ensures RouteRefers(w, w.routes[k]) {
      var i := RouteConfigHasListener(env, lk, cs, kept, k);
      RouteConfigRefers(env, lk, cs, auth, w, kept[i]);
    }
  }

  lemma CompiledIsTidy(env: Env, lk: Linked, cs: ConfigSet, auth: map<string, ClusterView>, w: WorkView)
    requires WellFormed(cs) && LinkOk(lk, cs) && CompiledFrom(env, lk, cs, auth, w)
    ensures Tidy(w)
  {
    hide LinkOk, ViewOf, KeptListeners, RouteConfigs, ClusterSet, Buildable, AuthClustersIn, Refers, TidyListener,
      TidyCluster, AllSecrets, Unique;
    var kept := KeptListeners(cs);
    CompiledRefers(env, lk, cs, auth, w);
    KeptNames(cs);
    ViewsUnique(env, lk, cs, kept);
    RouteConfigsUnique(env, lk, cs, kept);
    ClustersTidy(cs, auth, w);
    forall i | 0 <= i < |w.listeners| ensures TidyListener(w.listeners[i]) {
      assert kept[i] in kept;
      ViewTidy(env, lk, cs, kept[i]);
    }
  }
}
