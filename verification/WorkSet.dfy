/** Stage F5 over a whole work set: every compiled listener is shaped, STATIC clusters give up
    their endpoints in xDS mode, and the result is assembled by resource name. */
module WorkSet {
  import opened Text
  import opened Envoy
  import opened Shaping
  import opened Link
  import opened Materialize
  import Names
  import Sorting

  function Owner(l: ListenerView): string {
    Names.TrimPrefix(l.name, "lis/")
  }

  ghost function ChainsOf(ls: seq<Listener>): (cs: set<FilterChain>)
    ensures forall i, k :: 0 <= i < |ls| && 0 <= k < |ls[i].chains| ==> ls[i].chains[k] in cs
  {
    set i, k | 0 <= i < |ls| && 0 <= k < |ls[i].chains| :: ls[i].chains[k]
  }

  ghost function AllFilters(ls: seq<Listener>): (fs: set<Filter>)
    ensures forall i :: 0 <= i < |ls| ==> FiltersOf(ls[i]) <= fs
  {
    set i, k, j | 0 <= i < |ls| && 0 <= k < |ls[i].chains| && 0 <= j < |ls[i].chains[k].filters| ::
      ls[i].chains[k].filters[j]
  }

  /** No two listeners share a chain or a filter; within a listener chains may share filters. */
  ghost predicate Separate(ls: seq<Listener>) {
    && (forall i :: 0 <= i < |ls| ==> DistinctChains(ls[i]))
    && (forall i, j, c :: 0 <= i < j < |ls| && c in ls[i].chains ==> c !in ls[j].chains)
    && (forall i, j :: 0 <= i < j < |ls| ==> FiltersOf(ls[i]) !! FiltersOf(ls[j]))
  }

  ghost predicate ShowAll(ls: seq<Listener>, vs: seq<ListenerView>)
    reads ChainsOf(ls), AllFilters(ls)
  {
    |vs| == |ls| && forall i :: 0 <= i < |ls| ==> Shows(ls[i], vs[i])
  }

  lemma AllDistinct(ls: seq<Listener>)
    requires Separate(ls)
    ensures forall i :: 0 <= i < |ls| ==> DistinctChains(ls[i])
  {
  }

  lemma Apart(ls: seq<Listener>, i: nat, n: nat)
    requires Separate(ls) && i < |ls| && n < |ls| && i != n
    ensures forall k :: 0 <= k < |ls[i].chains| ==> ls[i].chains[k] !in ls[n].chains
    ensures FiltersOf(ls[i]) !! FiltersOf(ls[n])
  {
  }

  lemma ShowsName(l: Listener, v: ListenerView)
    requires Shows(l, v)
    ensures v.name == l.name
  {
  }

  /** A listener whose chains and filters did not change still shows what it showed. */
  twostate lemma Untouched(l: Listener)
    requires forall k :: 0 <= k < |l.chains| ==> l.chains[k].tls == old(l.chains[k].tls)
    requires forall f :: f in FiltersOf(l) ==> f.config == old(f.config)
    ensures forall w :: Shows(l, w) == old(Shows(l, w))
    ensures SharedHcm(l) == old(SharedHcm(l))
  {
    forall w ensures Shows(l, w) == old(Shows(l, w)) {
      forall k | 0 <= k < |l.chains| && |w.chains| == |l.chains|
        ensures ShowsChain(l.chains[k], w.chains[k]) == old(ShowsChain(l.chains[k], w.chains[k]))
      {
        assert forall j :: 0 <= j < |l.chains[k].filters| ==> l.chains[k].filters[j] in FiltersOf(l);
      }
    }
  }

  // xDS

  function XdsView(v: ListenerView, compiled: set<string>, secrets: seq<Secret>): ListenerView {
    if v.name in compiled then SdsListener(Owner(v), secrets, v) else v
  }

  ghost predicate XdsOk(v: ListenerView, compiled: set<string>, secrets: seq<Secret>, compiledSecrets: set<string>) {
    v.name in compiled ==> SdsListenerOk(Owner(v), secrets, compiledSecrets, v.chains)
  }

  method ShapeXds(ls: seq<Listener>, compiled: set<string>, secrets: seq<Secret>, compiledSecrets: set<string>,
      ghost vs: seq<ListenerView>)
    returns (errs: seq<CompileError>)
    requires Separate(ls) && ShowAll(ls, vs)
    modifies ChainsOf(ls)
    ensures AllAt(errs, PatchStage)
    ensures errs == [] <==> forall i :: 0 <= i < |vs| ==> XdsOk(vs[i], compiled, secrets, compiledSecrets)
    ensures forall i :: 0 <= i < |ls| ==> Shows(ls[i], XdsView(vs[i], compiled, secrets))
  {
    hide SdsListenerOk, SdsListener, Shows, Separate;
    assert forall i :: 0 <= i < |ls| ==> DistinctChains(ls[i]) by { AllDistinct(ls); }
    errs := [];
    for n := 0 to |ls|
      invariant AllAt(errs, PatchStage)
      invariant errs == [] <==> forall i :: 0 <= i < n ==> XdsOk(vs[i], compiled, secrets, compiledSecrets)
      invariant forall i :: 0 <= i < n ==> Shows(ls[i], XdsView(vs[i], compiled, secrets))
      invariant forall i :: n <= i < |ls| ==> Shows(ls[i], vs[i])
    {
      var lerrs := [];
      ShowsName(ls[n], vs[n]);
      label before:
      if ls[n].name in compiled {
        lerrs := ReferenceSds(ls[n], secrets, compiledSecrets, vs[n]);
      }
      assert lerrs == [] <==> XdsOk(vs[n], compiled, secrets, compiledSecrets);
      forall i | 0 <= i < |ls| && i != n ensures forall w :: Shows(ls[i], w) == old@before(Shows(ls[i], w)) {
        Apart(ls, i, n);
        Untouched@before(ls[i]);
      }
      errs := errs + lerrs;
    }
  }

  // Static

  ghost predicate StaticOk(v: ListenerView, compiled: set<string>, secrets: seq<Secret>, compiledSecrets: set<string>,
      routes: seq<RouteConfig>) {
    v.name in compiled ==> StaticListenerOk(Owner(v), secrets, compiledSecrets, routes, v.chains)
  }

  ghost predicate StaticView(v: ListenerView, w: ListenerView, compiled: set<string>, secrets: seq<Secret>,
      routes: seq<RouteConfig>, inlined: set<string>) {
    if v.name in compiled then StaticListener(Owner(v), secrets, routes, inlined, v, w) else w == v
  }

  lemma StaticViewGrows(v: ListenerView, w: ListenerView, compiled: set<string>, secrets: seq<Secret>,
      routes: seq<RouteConfig>, inlined: set<string>, more: set<string>)
    requires StaticView(v, w, compiled, secrets, routes, inlined) && inlined <= more
    ensures StaticView(v, w, compiled, secrets, routes, more)
  {
    if v.name in compiled {
      forall i | 0 <= i < |v.chains| ensures StaticChain(v.chains[i], w.chains[i], routes, more) {
        assert StaticChain(v.chains[i], w.chains[i], routes, inlined);
      }
    }
  }

  /** The route configurations that some compiled listener inlines. */
  ghost predicate InlinedBy(vs: seq<ListenerView>, n: nat, compiled: set<string>, routes: seq<RouteConfig>,
      inlined: set<string>)
    requires n <= |vs|
  {
    forall r ::
      r in inlined <==> exists i :: 0 <= i < n && vs[i].name in compiled && r in InlinedName(routes, vs[i].chains)
  }

  lemma InlinedStep(vs: seq<ListenerView>, n: nat, compiled: set<string>, routes: seq<RouteConfig>,
      inlined: set<string>, now: set<string>)
    requires n < |vs| && InlinedBy(vs, n, compiled, routes, inlined)
    requires now == inlined + if vs[n].name in compiled then InlinedName(routes, vs[n].chains) else {}
    ensures InlinedBy(vs, n + 1, compiled, routes, now)
  {
    forall r
      ensures r in now
              <==> exists i :: 0 <= i < n + 1 && vs[i].name in compiled && r in InlinedName(routes, vs[i].chains)
    {
      if r in now && r !in inlined {
        assert vs[n].name in compiled && r in InlinedName(routes, vs[n].chains);
      }
    }
  }

  lemma NoneInlined(vs: seq<ListenerView>, compiled: set<string>, routes: seq<RouteConfig>)
    ensures InlinedBy(vs, 0, compiled, routes, {})
  {
  }

  ghost predicate AllStatic(ls: seq<Listener>, n: nat, vs: seq<ListenerView>, compiled: set<string>,
      secrets: seq<Secret>, routes: seq<RouteConfig>, inlined: set<string>)
    requires n <= |ls| == |vs|
    reads ChainsOf(ls), AllFilters(ls)
  {
    forall i, w :: 0 <= i < n && Shows(ls[i], w) ==> StaticView(vs[i], w, compiled, secrets, routes, inlined)
  }

  /** The values a listener object shows: one, or none. */
  ghost function Views(l: Listener): iset<ListenerView>
    reads l.chains, FiltersOf(l)
  {
    iset w | Shows(l, w)
  }

  twostate lemma UntouchedViews(l: Listener)
    requires forall k :: 0 <= k < |l.chains| ==> l.chains[k].tls == old(l.chains[k].tls)
    requires forall f :: f in FiltersOf(l) ==> f.config == old(f.config)
    ensures Views(l) == old(Views(l)) && SharedHcm(l) == old(SharedHcm(l))
  {
    Untouched(l);
  }

  /** A listener that showed v now shows its static shape only. */
  ghost predicate BecameStatic(views: iset<ListenerView>, v: ListenerView, compiled: set<string>, secrets: seq<Secret>,
      routes: seq<RouteConfig>, inlined: set<string>)
  {
    forall w :: w in views ==> StaticView(v, w, compiled, secrets, routes, inlined)
  }

  ghost predicate NoneLeft(views: iset<ListenerView>) {
    forall w :: w in views ==> NoRdsLeft(w)
  }

  lemma BecameStaticGrows(views: iset<ListenerView>, v: ListenerView, compiled: set<string>, secrets: seq<Secret>,
      routes: seq<RouteConfig>, inlined: set<string>, more: set<string>)
    requires BecameStatic(views, v, compiled, secrets, routes, inlined) && inlined <= more
    ensures BecameStatic(views, v, compiled, secrets, routes, more)
  {
    hide StaticView;
    forall w | w in views ensures StaticView(v, w, compiled, secrets, routes, more) {
      StaticViewGrows(v, w, compiled, secrets, routes, inlined, more);
    }
  }

  method ShapeOneStatic(l: Listener, compiled: set<string>, secrets: seq<Secret>, compiledSecrets: set<string>,
      routes: seq<RouteConfig>, inlined: set<string>, ghost v: ListenerView)
    returns (errs: seq<CompileError>, now: set<string>)
    requires v in Views(l) && DistinctChains(l)
    modifies l.chains, FiltersOf(l)
    ensures AllAt(errs, PatchStage)
    ensures errs == [] <==> StaticOk(v, compiled, secrets, compiledSecrets, routes)
    ensures now == inlined + if v.name in compiled then InlinedName(routes, v.chains) else {}
    ensures BecameStatic(Views(l), v, compiled, secrets, routes, now)
    ensures errs == [] && v.name in compiled && old(SharedHcm(l)) ==> NoneLeft(Views(l))
  {
    hide StaticListener, StaticListenerOk, NoRdsLeft, InlinedName, SharedHcm;
    errs, now := [], inlined;
    if l.name in compiled {
      errs, now := InlineListener(l, secrets, compiledSecrets, routes, inlined, v);
    } else {
      forall w | Shows(l, w) ensures w == v {
        ShowsUnique(l, v, w);
      }
    }
  }

  /** Listener n has been shaped; the inlined route configurations only grow. */
  lemma AllGrow(views: seq<iset<ListenerView>>, vs: seq<ListenerView>, n: nat, compiled: set<string>,
      secrets: seq<Secret>, routes: seq<RouteConfig>, inlined: set<string>, more: set<string>)
    requires n <= |views| == |vs| && inlined <= more
    requires forall i :: 0 <= i < n ==> BecameStatic(views[i], vs[i], compiled, secrets, routes, inlined)
    ensures forall i :: 0 <= i < n ==> BecameStatic(views[i], vs[i], compiled, secrets, routes, more)
  {
    hide BecameStatic;
    forall i | 0 <= i < n ensures BecameStatic(views[i], vs[i], compiled, secrets, routes, more) {
      BecameStaticGrows(views[i], vs[i], compiled, secrets, routes, inlined, more);
    }
  }

  /** Shapes listener n and no other. */
  method ShapeNth(ls: seq<Listener>, n: nat, compiled: set<string>, secrets: seq<Secret>, compiledSecrets: set<string>,
      routes: seq<RouteConfig>, inlined: set<string>, ghost v: ListenerView)
    returns (errs: seq<CompileError>, now: set<string>)
    requires Separate(ls) && n < |ls| && v in Views(ls[n])
    modifies ls[n].chains, FiltersOf(ls[n])
    ensures AllAt(errs, PatchStage)
    ensures errs == [] <==> StaticOk(v, compiled, secrets, compiledSecrets, routes)
    ensures now == inlined + if v.name in compiled then InlinedName(routes, v.chains) else {}
    ensures BecameStatic(Views(ls[n]), v, compiled, secrets, routes, now)
    ensures errs == [] && v.name in compiled && old(SharedHcm(ls[n])) ==> NoneLeft(Views(ls[n]))
    ensures forall i :: 0 <= i < |ls| && i != n ==> Views(ls[i]) == old(Views(ls[i]))
    ensures forall i :: 0 <= i < |ls| && i != n ==> SharedHcm(ls[i]) == old(SharedHcm(ls[i]))
  {
    hide StaticOk, InlinedName, Separate, SharedHcm, Views, BecameStatic, NoneLeft;
    AllDistinct(ls);
    errs, now := ShapeOneStatic(ls[n], compiled, secrets, compiledSecrets, routes, inlined, v);
    forall i | 0 <= i < |ls| && i != n
      ensures Views(ls[i]) == old(Views(ls[i])) && SharedHcm(ls[i]) == old(SharedHcm(ls[i]))
    {
      Apart(ls, i, n);
      UntouchedViews(ls[i]);
    }
  }

  ghost function AllViews(ls: seq<Listener>): (views: seq<iset<ListenerView>>)
    reads ChainsOf(ls), AllFilters(ls)
    ensures |views| == |ls| && forall i :: 0 <= i < |ls| ==> views[i] == Views(ls[i])
  {
    seq(|ls|, i requires 0 <= i < |ls| reads ChainsOf(ls), AllFilters(ls) => Views(ls[i]))
  }

  method ShapeStatic(ls: seq<Listener>, compiled: set<string>, secrets: seq<Secret>, compiledSecrets: set<string>,
      routes: seq<RouteConfig>, ghost vs: seq<ListenerView>)
    returns (errs: seq<CompileError>, inlined: set<string>)
    requires Separate(ls) && ShowAll(ls, vs)
    modifies ChainsOf(ls), AllFilters(ls)
    ensures AllAt(errs, PatchStage)
    ensures errs == [] <==> forall i :: 0 <= i < |vs| ==> StaticOk(vs[i], compiled, secrets, compiledSecrets, routes)
    ensures InlinedBy(vs, |vs|, compiled, routes, inlined)
    ensures AllStatic(ls, |ls|, vs, compiled, secrets, routes, inlined)
    ensures errs == [] ==>
      forall i, w :: 0 <= i < |ls| && vs[i].name in compiled && old(SharedHcm(ls[i])) && Shows(ls[i], w) ==>
        NoRdsLeft(w)
  {
    hide StaticOk, StaticListener, InlinedName, InlinedBy, NoRdsLeft, Shows, Separate, SharedHcm, AllStatic, Views,
      BecameStatic, NoneLeft, AllViews, ChainsOf, AllFilters, FiltersOf, StaticView;
    errs, inlined := [], {};
    NoneInlined(vs, compiled, routes);
    AllInViews(ls, vs);
    for n := 0 to |ls|
      invariant AllAt(errs, PatchStage)
      invariant errs == [] <==> forall i :: 0 <= i < n ==> StaticOk(vs[i], compiled, secrets, compiledSecrets, routes)
      invariant InlinedBy(vs, n, compiled, routes, inlined)
      invariant forall i :: 0 <= i < n ==> BecameStatic(Views(ls[i]), vs[i], compiled, secrets, routes, inlined)
      invariant errs == [] ==>
        forall i :: 0 <= i < n && vs[i].name in compiled && old(SharedHcm(ls[i])) ==> NoneLeft(Views(ls[i]))
      invariant forall i :: n <= i < |ls| ==> vs[i] in Views(ls[i]) && SharedHcm(ls[i]) == old(SharedHcm(ls[i]))
    {
      label before:
      var lerrs, now := ShapeNth(ls, n, compiled, secrets, compiledSecrets, routes, inlined, vs[n]);
      AllGrow(old@before(AllViews(ls)), vs, n, compiled, secrets, routes, inlined, now);
      InlinedStep(vs, n, compiled, routes, inlined, now);
      inlined, errs := now, errs + lerrs;
    }
    FromViews(ls, vs, compiled, secrets, routes, inlined);
  }

  lemma AllInViews(ls: seq<Listener>, vs: seq<ListenerView>)
    requires ShowAll(ls, vs)
    ensures forall i :: 0 <= i < |ls| ==> vs[i] in Views(ls[i])
  {
    hide Shows;
  }

  lemma FromViews(ls: seq<Listener>, vs: seq<ListenerView>, compiled: set<string>, secrets: seq<Secret>,
      routes: seq<RouteConfig>, inlined: set<string>)
    requires |ls| == |vs|
    requires forall i :: 0 <= i < |ls| ==> BecameStatic(Views(ls[i]), vs[i], compiled, secrets, routes, inlined)
    ensures AllStatic(ls, |ls|, vs, compiled, secrets, routes, inlined)
    ensures forall i, w :: 0 <= i < |ls| && NoneLeft(Views(ls[i])) && Shows(ls[i], w) ==> NoRdsLeft(w)
  {
    hide Shows, StaticView, NoRdsLeft;
  }

  // Clusters

  function View(c: Cluster): ClusterView
    reads c
  {
    ClusterView(c.name, c.discovery, c.assignment, c.edsConfig)
  }

  predicate HasAssignment(endpoints: seq<LoadAssignment>, name: string) {
    exists a :: a in endpoints && a.clusterName == name
  }

  /** Moving the cluster's endpoints out does not collide with an assignment the work set holds. */
  predicate Extractable(c: ClusterView, endpoints: seq<LoadAssignment>) {
    Extracts(c) ==> !HasAssignment(endpoints, c.assignment.value.clusterName)
  }

  method ExtractOne(c: Cluster, endpoints: seq<LoadAssignment>) returns (moved: seq<LoadAssignment>,
      errs: seq<CompileError>)
    modifies c
    ensures AllAt(errs, PatchStage)
    ensures errs == [] <==> Extractable(old(View(c)), endpoints)
    ensures errs == [] ==> View(c) == EdsCluster(old(View(c)))
    ensures errs == [] ==> moved == if Extracts(old(View(c))) then [old(c.assignment.value)] else []
  {
    moved, errs := [], [];
    if !(c.discovery.Static? || c.discovery.CustomType?) || c.assignment.None? {
      return;
    }
    var cla := c.assignment.value;
    if HasAssignment(endpoints, cla.clusterName) {
      errs := [PatchError(cla.clusterName)];
      return;
    }
    c.assignment, c.discovery, c.edsConfig := None, Eds, true;
    moved := [cla];
  }

  /** a is an assignment that the xDS shape moves out of one of cvs. */
  ghost predicate MovedFrom(a: LoadAssignment, cvs: seq<ClusterView>) {
    exists v :: v in cvs && Extracts(v) && v.assignment.value == a
  }

  ghost predicate EndpointsAfter(out: seq<LoadAssignment>, endpoints: seq<LoadAssignment>, cvs: seq<ClusterView>) {
    forall a :: a in out <==> (a in endpoints || MovedFrom(a, cvs))
  }

  lemma EndpointsStep(out: seq<LoadAssignment>, endpoints: seq<LoadAssignment>, cvs: seq<ClusterView>, i: nat)
    requires i < |cvs| && EndpointsAfter(out, endpoints, cvs[..i])
    ensures EndpointsAfter(out + if Extracts(cvs[i]) then [cvs[i].assignment.value] else [], endpoints, cvs[..i + 1])
  {
    assert cvs[..i + 1] == cvs[..i] + [cvs[i]];
    forall a
      ensures MovedFrom(a, cvs[..i + 1])
              <==> (MovedFrom(a, cvs[..i]) || (Extracts(cvs[i]) && cvs[i].assignment.value == a))
    {
    }
  }

  lemma EndpointsStart(endpoints: seq<LoadAssignment>)
    ensures EndpointsAfter(endpoints, endpoints, [])
  {
  }

  ghost predicate ShowClusters(cs: seq<Cluster>, cvs: seq<ClusterView>)
    reads cs
  {
    |cs| == |cvs| && forall i :: 0 <= i < |cs| ==> View(cs[i]) == cvs[i]
  }

  method ExtractEach(cls: seq<Cluster>, endpoints: seq<LoadAssignment>, ghost cvs: seq<ClusterView>)
    returns (out: seq<LoadAssignment>, errs: seq<CompileError>)
    requires Sorting.Distinct(cls) && ShowClusters(cls, cvs)
    modifies cls
    ensures AllAt(errs, PatchStage)
    ensures errs == [] <==> forall i :: 0 <= i < |cvs| ==> Extractable(cvs[i], endpoints)
    ensures errs == [] ==> forall i :: 0 <= i < |cvs| ==> View(cls[i]) == EdsCluster(cvs[i])
    ensures errs == [] ==> EndpointsAfter(out, endpoints, cvs)
  {
    hide EndpointsAfter, EdsCluster, Extractable;
    out, errs := endpoints, [];
    EndpointsStart(endpoints);
    assert cvs[..0] == [];
    for i := 0 to |cls|
      invariant AllAt(errs, PatchStage)
      invariant errs == [] <==> forall k :: 0 <= k < i ==> Extractable(cvs[k], endpoints)
      invariant errs == [] ==> forall k :: 0 <= k < i ==> View(cls[k]) == EdsCluster(cvs[k])
      invariant forall k :: i <= k < |cls| ==> View(cls[k]) == cvs[k]
      invariant errs == [] ==> EndpointsAfter(out, endpoints, cvs[..i])
    {
      var moved, cerrs := ExtractOne(cls[i], endpoints);
      if errs + cerrs == [] {
        EndpointsStep(out, endpoints, cvs, i);
      }
      errs, out := errs + cerrs, out + moved;
    }
    assert cvs[..|cls|] == cvs;
  }

  lemma SameElements(endpoints: seq<LoadAssignment>, out: seq<LoadAssignment>, a: seq<ClusterView>, b: seq<ClusterView>)
    requires forall v :: v in a <==> v in b
    ensures EndpointsAfter(out, endpoints, a) <==> EndpointsAfter(out, endpoints, b)
  {
    forall x ensures MovedFrom(x, a) <==> MovedFrom(x, b) {
    }
  }

  /** The sorted clusters, with for every cluster its position among them. */
  method SortClusters(clusters: seq<Cluster>) returns (cls: seq<Cluster>, ghost at: seq<nat>)
    requires Sorting.Distinct(clusters)
    ensures Sorting.Distinct(cls) && |at| == |clusters| == |cls|
    ensures forall i :: 0 <= i < |cls| ==> cls[i] in clusters
    ensures forall i :: 0 <= i < |clusters| ==> at[i] < |cls| && cls[at[i]] == clusters[i]
  {
    var byName := (x: Cluster, y: Cluster) => Le(x.name, y.name);
    cls := Sorting.Sort(clusters, byName);
    Sorting.SortPermutes(clusters, byName);
    Sorting.SortKeepsDistinct(clusters, byName);
    at := [];
    ghost var k := 0;
    while k < |clusters|
      invariant 0 <= k <= |clusters| && |at| == k
      invariant forall i :: 0 <= i < k ==> at[i] < |cls| && cls[at[i]] == clusters[i]
    {
      assert clusters[k] in cls;
      ghost var j :| 0 <= j < |cls| && cls[j] == clusters[k];
      at := at + [j];
      k := k + 1;
    }
  }

  /** xDS: inline endpoints of STATIC clusters become EDS resources. */
  method ExtractEds(clusters: seq<Cluster>, endpoints: seq<LoadAssignment>, ghost cvs: seq<ClusterView>)
    returns (out: seq<LoadAssignment>, errs: seq<CompileError>)
    requires Sorting.Distinct(clusters) && ShowClusters(clusters, cvs)
    modifies clusters
    ensures AllAt(errs, PatchStage)
    ensures errs == [] <==> forall i :: 0 <= i < |cvs| ==> Extractable(cvs[i], endpoints)
    ensures errs == [] ==> forall i :: 0 <= i < |cvs| ==> View(clusters[i]) == EdsCluster(cvs[i])
    ensures errs == [] ==> EndpointsAfter(out, endpoints, cvs)
  {
    hide EdsCluster, Extractable, EndpointsAfter;
    var cls, at := SortClusters(clusters);
    ghost var sorted := seq(|cls|, i requires 0 <= i < |cls| reads cls => View(cls[i]));
    assert forall i :: 0 <= i < |cvs| ==> cvs[i] == sorted[at[i]];
    assert forall i :: 0 <= i < |sorted| ==> sorted[i] in cvs by {
      forall i | 0 <= i < |sorted| ensures sorted[i] in cvs {
        var k :| 0 <= k < |clusters| && clusters[k] == cls[i];
        assert cvs[k] == sorted[i];
      }
    }
    out, errs := ExtractEach(cls, endpoints, sorted);
    SameElements(endpoints, out, sorted, cvs);
  }
}
