/** The F4 work set and its materialization into a resource set (F5). */
module Synthesis {
  import opened Text
  import opened Envoy
  import opened Shaping
  import opened Link
  import opened Materialize
  import opened WorkSet
  import Names
  import Sorting

  datatype Mode = Xds | StaticMode

  /** The value of a work set. */
  datatype WorkView = WorkView(
    listeners: seq<ListenerView>, routes: seq<RouteConfig>, clusters: seq<ClusterView>,
    endpoints: seq<LoadAssignment>, secrets: seq<Secret>,
    compiledListeners: set<string>, compiledSecrets: set<string>)

  function ListenerName(v: ListenerView): string { v.name }
  function ClusterName(v: ClusterView): string { v.name }
  function RouteName(v: RouteConfig): string { v.name }
  function AssignmentName(v: LoadAssignment): string { v.clusterName }
  function SecretName(v: Secret): string { v.name }

  /** m holds the elements of s under their names, leaving out the names in skip. */
  ghost predicate Indexed<T>(m: map<string, T>, s: seq<T>, name: T -> string, skip: set<string>) {
    && (forall n :: n in m ==> m[n] in s && name(m[n]) == n && n !in skip)
    && (forall i :: 0 <= i < |s| && name(s[i]) !in skip ==> name(s[i]) in m)
  }

  method IndexByName<T>(s: seq<T>, name: T -> string, skip: set<string>) returns (m: map<string, T>)
    ensures Indexed(m, s, name, skip)
  {
    m := map[];
    for i := 0 to |s|
      invariant forall n :: n in m ==> m[n] in s[..i] && name(m[n]) == n && n !in skip
      invariant forall k :: 0 <= k < i && name(s[k]) !in skip ==> name(s[k]) in m
    {
      assert s[..i + 1] == s[..i] + [s[i]];
      if name(s[i]) !in skip {
        m := m[name(s[i]) := s[i]];
      }
    }
    assert s[..|s|] == s;
  }

  method ReadListeners(ls: seq<Listener>) returns (vs: seq<ListenerView>)
    ensures ShowAll(ls, vs)
    ensures forall want :: old(ShowAll(ls, want)) ==> vs == want
  {
    vs := [];
    for i := 0 to |ls|
      invariant |vs| == i && forall k :: 0 <= k < i ==> Shows(ls[k], vs[k])
    {
      var v := ReadListener(ls[i]);
      vs := vs + [v];
    }
    forall want | old(ShowAll(ls, want)) ensures vs == want {
      ListenersAre(ls, vs, want);
    }
  }

  method ReadClusters(cs: seq<Cluster>) returns (vs: seq<ClusterView>)
    ensures ShowClusters(cs, vs)
  {
    vs := [];
    for i := 0 to |cs|
      invariant |vs| == i && forall k :: 0 <= k < i ==> vs[k] == View(cs[k])
    {
      vs := vs + [View(cs[i])];
    }
  }

  // What each mode makes of a work set

  function XdsListeners(w: WorkView): seq<ListenerView> {
    seq(|w.listeners|, i requires 0 <= i < |w.listeners| => XdsView(w.listeners[i], w.compiledListeners, w.secrets))
  }

  function XdsClusters(w: WorkView): seq<ClusterView> {
    seq(|w.clusters|, i requires 0 <= i < |w.clusters| => EdsCluster(w.clusters[i]))
  }

  ghost predicate XdsWorkOk(w: WorkView) {
    && (forall i :: 0 <= i < |w.listeners| ==> XdsOk(w.listeners[i], w.compiledListeners, w.secrets, w.compiledSecrets))
    && (forall i :: 0 <= i < |w.clusters| ==> Extractable(w.clusters[i], w.endpoints))
  }

  /** ir is the xDS resource set of w; assignments lists its load assignments. */
  ghost predicate XdsIR(w: WorkView, assignments: seq<LoadAssignment>, ir: IR) {
    && Indexed(ir.listeners, XdsListeners(w), ListenerName, {})
    && Indexed(ir.clusters, XdsClusters(w), ClusterName, {})
    && Indexed(ir.routes, w.routes, RouteName, {})
    && EndpointsAfter(assignments, w.endpoints, w.clusters)
    && Indexed(ir.endpoints, assignments, AssignmentName, {})
    && Indexed(ir.secrets, w.secrets, SecretName, {})
  }

  ghost predicate StaticWorkOk(w: WorkView) {
    forall i :: 0 <= i < |w.listeners| ==>
      StaticOk(w.listeners[i], w.compiledListeners, w.secrets, w.compiledSecrets, w.routes)
  }

  /** ir is the static resource set of w, its listeners being shaped and the routes in inlined written into them. */
  ghost predicate StaticIR(w: WorkView, shaped: seq<ListenerView>, inlined: set<string>, ir: IR) {
    && |shaped| == |w.listeners|
    && (forall i :: 0 <= i < |shaped| ==>
           StaticView(w.listeners[i], shaped[i], w.compiledListeners, w.secrets, w.routes, inlined))
    && InlinedBy(w.listeners, |w.listeners|, w.compiledListeners, w.routes, inlined)
    && Indexed(ir.listeners, shaped, ListenerName, {})
    && Indexed(ir.clusters, w.clusters, ClusterName, {})
    && Indexed(ir.routes, w.routes, RouteName, inlined)
    && Indexed(ir.endpoints, w.endpoints, AssignmentName, {})
    && Indexed(ir.secrets, w.secrets, SecretName, w.compiledSecrets)
  }

  class WorkSetObject {
    var listeners: seq<Listener>
    var routes: seq<RouteConfig>
    var clusters: seq<Cluster>
    var endpoints: seq<LoadAssignment>
    var secrets: seq<Secret>
    var compiledListeners: set<string>
    var compiledSecrets: set<string>

    constructor (listeners: seq<Listener>, routes: seq<RouteConfig>, clusters: seq<Cluster>)
      ensures this.listeners == listeners && this.routes == routes && this.clusters == clusters
      ensures endpoints == [] && secrets == [] && compiledListeners == {} && compiledSecrets == {}
    {
      this.listeners, this.routes, this.clusters := listeners, routes, clusters;
      endpoints, secrets, compiledListeners, compiledSecrets := [], [], {}, {};
    }

    /** The work set's current contents are w, and its objects are not shared across resources. */
    ghost predicate Holds(w: WorkView)
      reads this, ChainsOf(listeners), AllFilters(listeners), clusters
    {
      && Separate(listeners) && ShowAll(listeners, w.listeners)
      && Sorting.Distinct(clusters) && ShowClusters(clusters, w.clusters)
      && routes == w.routes && endpoints == w.endpoints && secrets == w.secrets
      && compiledListeners == w.compiledListeners && compiledSecrets == w.compiledSecrets
    }

    method MaterializeXds(ghost w: WorkView) returns (ir: Option<IR>, errs: seq<CompileError>,
        ghost assignments: seq<LoadAssignment>)
      requires Holds(w)
      modifies ChainsOf(listeners), clusters
      ensures AllAt(errs, PatchStage)
      ensures errs == [] <==> XdsWorkOk(w)
      ensures ir.Some? <==> errs == []
      ensures ir.Some? ==> XdsIR(w, assignments, ir.value)
    {
      hide Separate, Shows, XdsView, EdsCluster, XdsOk, Extractable, EndpointsAfter, Sorting.Distinct;
      var lerrs := ShapeXds(listeners, compiledListeners, secrets, compiledSecrets, w.listeners);
      label shaped:
      var out, cerrs := ExtractEds(clusters, endpoints, w.clusters);
      errs := lerrs + cerrs;
      ir, assignments := None, out;
      if errs == [] {
        ghost var want := XdsListeners(w);
        forall i | 0 <= i < |listeners| ensures Shows(listeners[i], want[i]) {
          Untouched@shaped(listeners[i]);
        }
        assert ShowAll(listeners, want);
        var vs := ReadListeners(listeners);
        var cvs := ReadClusters(clusters);
        assert cvs == XdsClusters(w);
        var ls := IndexByName(vs, ListenerName, {});
        var cs := IndexByName(cvs, ClusterName, {});
        var rs := IndexByName(routes, RouteName, {});
        var es := IndexByName(out, AssignmentName, {});
        var ss := IndexByName(secrets, SecretName, {});
        ir := Some(IR(ls, cs, rs, es, ss));
      }
    }

    method MaterializeStatic(ghost w: WorkView)
      returns (ir: Option<IR>, errs: seq<CompileError>, inlined: set<string>, ghost shaped: seq<ListenerView>)
      requires Holds(w)
      modifies ChainsOf(listeners), AllFilters(listeners)
      ensures AllAt(errs, PatchStage)
      ensures errs == [] <==> StaticWorkOk(w)
      ensures ir.Some? <==> errs == []
      ensures ir.Some? ==> StaticIR(w, shaped, inlined, ir.value)
      ensures ir.Some? ==>
        forall i ::
          0 <= i < |w.listeners| && w.listeners[i].name in w.compiledListeners && old(SharedHcm(listeners[i])) ==>
            NoRdsLeft(shaped[i])
    {
      hide Separate, Shows, StaticView, StaticOk, InlinedBy, NoRdsLeft, SharedHcm, Sorting.Distinct, Indexed, AllStatic;
      errs, inlined := ShapeStatic(listeners, compiledListeners, secrets, compiledSecrets, routes, w.listeners);
      ir, shaped := None, [];
      if errs == [] {
        var vs := ReadListeners(listeners);
        shaped := vs;
        ShapedAre(listeners, w.listeners, shaped, compiledListeners, secrets, routes, inlined);
        var out := AssembleStatic(vs, inlined, w.clusters);
        ir := Some(out);
      }
    }

    /** Indexes the shaped listeners and the rest of the work set by name, without what is inlined. */
    method AssembleStatic(shaped: seq<ListenerView>, inlined: set<string>, ghost cvs: seq<ClusterView>)
      returns (ir: IR)
      requires ShowClusters(clusters, cvs)
      ensures Indexed(ir.listeners, shaped, ListenerName, {}) && Indexed(ir.clusters, cvs, ClusterName, {})
      ensures Indexed(ir.routes, routes, RouteName, inlined) && Indexed(ir.endpoints, endpoints, AssignmentName, {})
      ensures Indexed(ir.secrets, secrets, SecretName, compiledSecrets)
    {
      hide Indexed;
      var now := ReadClusters(clusters);
      assert now == cvs;
      var ls := IndexByName(shaped, ListenerName, {});
      var cs := IndexByName(now, ClusterName, {});
      var rs := IndexByName(routes, RouteName, inlined);
      var es := IndexByName(endpoints, AssignmentName, {});
      var ss := IndexByName(secrets, SecretName, compiledSecrets);
      ir := IR(ls, cs, rs, es, ss);
    }
  }

  lemma ShapedAre(ls: seq<Listener>, vs: seq<ListenerView>, shaped: seq<ListenerView>, compiled: set<string>,
      secrets: seq<Secret>, routes: seq<RouteConfig>, inlined: set<string>)
    requires |ls| == |vs| && ShowAll(ls, shaped) && AllStatic(ls, |ls|, vs, compiled, secrets, routes, inlined)
    ensures forall i :: 0 <= i < |vs| ==> StaticView(vs[i], shaped[i], compiled, secrets, routes, inlined)
  {
    hide Shows, StaticView;
  }

  lemma ListenersAre(ls: seq<Listener>, vs: seq<ListenerView>, want: seq<ListenerView>)
    requires ShowAll(ls, vs) && ShowAll(ls, want)
    ensures vs == want
  {
    forall i | 0 <= i < |ls| ensures vs[i] == want[i] {
      ShowsUnique(ls[i], vs[i], want[i]);
    }
  }
}
