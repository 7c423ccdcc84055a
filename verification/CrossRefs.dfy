/** Stage F6: every reference between resources resolves inside the resource set. */
module CrossRefs {
  import opened Text
  import opened Envoy
  import opened Link
  import Sorting

  function ValidateError(resource: string): CompileError {
    CompileError(ValidateStage, resource, "")
  }

  ghost predicate RoutesClosed(ir: IR, rc: RouteConfig) {
    forall v, r, c :: v in rc.vhosts && r in v.routes && c in r.action.Clusters() ==> c in ir.clusters
  }

  ghost predicate HttpFilterClosed(ir: IR, f: HttpFilter) {
    f.ExtAuthz? && f.cluster != "" ==> f.cluster in ir.clusters
  }

  ghost predicate FilterClosed(ir: IR, f: FilterConfig) {
    match f
    case TcpProxy(c) => c != "" ==> c in ir.clusters
    case OtherFilter(_) => true
    case HcmFilter(h) =>
      && (forall hf :: hf in h.httpFilters ==> HttpFilterClosed(ir, hf))
      && (h.routes.Rds? ==> h.routes.name in ir.routes)
      && (h.routes.InlineRoutes? ==> RoutesClosed(ir, h.routes.config))
  }

  ghost predicate TlsClosed(ir: IR, t: TlsContext) {
    && (forall n :: n in t.certSds ==> n in ir.secrets)
    && (t.validation.SdsValidation? ==> t.validation.secret in ir.secrets)
  }

  ghost predicate ChainClosed(ir: IR, c: ChainView) {
    && (forall f :: f in c.filters ==> FilterClosed(ir, f))
    && (c.tls.Some? ==> TlsClosed(ir, c.tls.value))
  }

  ghost predicate ListenerFilterClosed(ir: IR, f: ListenerFilter) {
    f.UdpProxy? && f.cluster != "" ==> f.cluster in ir.clusters
  }

  ghost predicate ListenerClosed(ir: IR, v: ListenerView) {
    && (forall c :: c in v.chains ==> ChainClosed(ir, c))
    && (forall f :: f in v.listenerFilters ==> ListenerFilterClosed(ir, f))
  }

  ghost predicate Closed(ir: IR) {
    && (forall n :: n in ir.listeners ==> ListenerClosed(ir, ir.listeners[n]))
    && (forall n :: n in ir.clusters && ir.clusters[n].edsConfig ==> n in ir.endpoints)
    && (forall n :: n in ir.routes ==> RoutesClosed(ir, ir.routes[n]))
  }

  method SortedKeys(keys: set<string>) returns (s: seq<string>)
    ensures Sorting.Ascending(s) && Sorting.Distinct(s)
    ensures forall n :: n in s <==> n in keys
  {
    var raw := [];
    var todo := keys;
    while todo != {}
      invariant todo <= keys && Sorting.Distinct(raw)
      invariant forall n :: n in raw <==> n in keys - todo
    {
      var n :| n in todo;
      assert n !in raw;
      raw, todo := raw + [n], todo - {n};
    }
    s := Sorting.SortStrings(raw);
    Sorting.SortAscending(raw);
    Sorting.SortPermutes(raw, Le);
    Sorting.SortKeepsDistinct(raw, Le);
  }

  method CheckAction(ir: IR, names: seq<string>, owner: string, seen: set<string>) returns (errs: seq<CompileError>,
      now: set<string>)
    requires forall n :: n in seen ==> n !in ir.clusters
    ensures AllAt(errs, ValidateStage)
    ensures seen <= now && forall n :: n in now ==> n !in ir.clusters
    ensures errs == [] <==> now == seen
    ensures forall n :: n in names && n !in ir.clusters ==> n in now
    ensures forall n :: n in now && n !in seen ==> n in names
  {
    errs, now := [], seen;
    for i := 0 to |names|
      invariant AllAt(errs, ValidateStage)
      invariant seen <= now && forall n :: n in now ==> n !in ir.clusters
      invariant errs == [] <==> now == seen
      invariant forall n :: n in names[..i] && n !in ir.clusters ==> n in now
      invariant forall n :: n in now && n !in seen ==> n in names[..i]
    {
      assert names[..i + 1] == names[..i] + [names[i]];
      if names[i] !in ir.clusters && names[i] !in now {
        now, errs := now + {names[i]}, errs + [ValidateError(owner)];
      }
    }
    assert names[..|names|] == names;
  }

  /** The clusters of vh's routes that the resource set lacks. */
  ghost predicate Misses(ir: IR, v: VirtualHost, n: string) {
    n !in ir.clusters && exists r :: r in v.routes && n in r.action.Clusters()
  }

  method CheckVirtualHost(ir: IR, v: VirtualHost, owner: string, seen: set<string>) returns (errs: seq<CompileError>,
      now: set<string>)
    requires forall n :: n in seen ==> n !in ir.clusters
    ensures AllAt(errs, ValidateStage)
    ensures seen <= now && forall n :: n in now ==> n !in ir.clusters
    ensures errs == [] <==> now == seen
    ensures forall n :: n in now <==> n in seen || Misses(ir, v, n)
  {
    errs, now := [], seen;
    for i := 0 to |v.routes|
      invariant AllAt(errs, ValidateStage)
      invariant seen <= now && forall n :: n in now ==> n !in ir.clusters
      invariant errs == [] <==> now == seen
      invariant forall n, k :: 0 <= k < i && n in v.routes[k].action.Clusters() && n !in ir.clusters ==> n in now
      invariant forall n :: n in now && n !in seen ==> Misses(ir, v, n)
    {
      var names := v.routes[i].action.Clusters();
      var rerrs, now' := CheckAction(ir, names, owner, now);
      assert forall n :: n in now' && n !in now ==> v.routes[i] in v.routes && n in names;
      errs, now := errs + rerrs, now';
    }
  }

  ghost predicate MissedBy(ir: IR, vs: seq<VirtualHost>, seen: set<string>) {
    forall n :: n in seen <==> exists v :: v in vs && Misses(ir, v, n)
  }

  lemma MissedStep(ir: IR, vs: seq<VirtualHost>, v: VirtualHost, seen: set<string>, now: set<string>)
    requires MissedBy(ir, vs, seen)
    requires forall n :: n in now <==> n in seen || Misses(ir, v, n)
    ensures MissedBy(ir, vs + [v], now)
  {
    forall n ensures n in now <==> exists u :: u in vs + [v] && Misses(ir, u, n) {
      if Misses(ir, v, n) {
        assert v in vs + [v];
      } else if n in seen {
        var u :| u in vs && Misses(ir, u, n);
        assert u in vs + [v];
      }
    }
  }

  lemma MissedNone(ir: IR, rc: RouteConfig, seen: set<string>)
    requires MissedBy(ir, rc.vhosts, seen)
    ensures seen == {} <==> RoutesClosed(ir, rc)
  {
    if !RoutesClosed(ir, rc) {
      var v, r, c :| v in rc.vhosts && r in v.routes && c in r.action.Clusters() && c !in ir.clusters;
      assert Misses(ir, v, c);
      assert c in seen;
    }
  }

  method CheckRouteConfigRefs(ir: IR, rc: RouteConfig, owner: string) returns (errs: seq<CompileError>)
    ensures AllAt(errs, ValidateStage)
    ensures errs == [] <==> RoutesClosed(ir, rc)
  {
    hide Misses, RoutesClosed;
    errs := [];
    var seen: set<string> := {};
    for i := 0 to |rc.vhosts|
      invariant AllAt(errs, ValidateStage)
      invariant errs == [] <==> seen == {}
      invariant forall n :: n in seen ==> n !in ir.clusters
      invariant MissedBy(ir, rc.vhosts[..i], seen)
    {
      var verrs, seen' := CheckVirtualHost(ir, rc.vhosts[i], owner, seen);
      MissedStep(ir, rc.vhosts[..i], rc.vhosts[i], seen, seen');
      assert rc.vhosts[..i + 1] == rc.vhosts[..i] + [rc.vhosts[i]];
      errs, seen := errs + verrs, seen';
    }
    assert rc.vhosts[..|rc.vhosts|] == rc.vhosts;
    MissedNone(ir, rc, seen);
  }

  method CheckFilter(ir: IR, f: FilterConfig, owner: string) returns (errs: seq<CompileError>)
    ensures AllAt(errs, ValidateStage)
    ensures errs == [] <==> FilterClosed(ir, f)
  {
    errs := [];
    if f.TcpProxy? && f.cluster != "" && f.cluster !in ir.clusters {
      errs := [ValidateError(owner)];
    }
    if f.HcmFilter? {
      var hfs := f.hcm.httpFilters;
      for i := 0 to |hfs|
        invariant AllAt(errs, ValidateStage)
        invariant errs == [] <==> forall hf :: hf in hfs[..i] ==> HttpFilterClosed(ir, hf)
      {
        assert hfs[..i + 1] == hfs[..i] + [hfs[i]];
        var dangling := hfs[i].ExtAuthz? && hfs[i].cluster != "" && hfs[i].cluster !in ir.clusters;
        assert dangling <==> !HttpFilterClosed(ir, hfs[i]);
        if dangling {
          errs := errs + [ValidateError(owner)];
        }
      }
      assert hfs[..|hfs|] == hfs;
      if f.hcm.routes.Rds? && f.hcm.routes.name !in ir.routes {
        errs := errs + [ValidateError(owner)];
      }
      if f.hcm.routes.InlineRoutes? {
        var rerrs := CheckRouteConfigRefs(ir, f.hcm.routes.config, owner);
        errs := errs + rerrs;
      }
    }
  }

  method CheckTls(ir: IR, t: TlsContext, owner: string) returns (errs: seq<CompileError>)
    ensures AllAt(errs, ValidateStage)
    ensures errs == [] <==> TlsClosed(ir, t)
  {
    errs := [];
    for i := 0 to |t.certSds|
      invariant AllAt(errs, ValidateStage)
      invariant errs == [] <==> forall n :: n in t.certSds[..i] ==> n in ir.secrets
    {
      assert t.certSds[..i + 1] == t.certSds[..i] + [t.certSds[i]];
      if t.certSds[i] !in ir.secrets {
        errs := errs + [ValidateError(owner)];
      }
    }
    assert t.certSds[..|t.certSds|] == t.certSds;
    if t.validation.SdsValidation? && t.validation.secret !in ir.secrets {
      errs := errs + [ValidateError(owner)];
    }
  }

  method CheckChain(ir: IR, c: ChainView, owner: string) returns (errs: seq<CompileError>)
    ensures AllAt(errs, ValidateStage)
    ensures errs == [] <==> ChainClosed(ir, c)
  {
    hide FilterClosed, TlsClosed;
    errs := [];
    for i := 0 to |c.filters|
      invariant AllAt(errs, ValidateStage)
      invariant errs == [] <==> forall f :: f in c.filters[..i] ==> FilterClosed(ir, f)
    {
      assert c.filters[..i + 1] == c.filters[..i] + [c.filters[i]];
      var ferrs := CheckFilter(ir, c.filters[i], owner);
      errs := errs + ferrs;
    }
    assert c.filters[..|c.filters|] == c.filters;
    if c.tls.Some? {
      var terrs := CheckTls(ir, c.tls.value, owner);
      errs := errs + terrs;
    }
  }

  method CheckListener(ir: IR, v: ListenerView, owner: string) returns (errs: seq<CompileError>)
    ensures AllAt(errs, ValidateStage)
    ensures errs == [] <==> ListenerClosed(ir, v)
  {
    hide ChainClosed;
    errs := [];
    for i := 0 to |v.chains|
      invariant AllAt(errs, ValidateStage)
      invariant errs == [] <==> forall c :: c in v.chains[..i] ==> ChainClosed(ir, c)
    {
      assert v.chains[..i + 1] == v.chains[..i] + [v.chains[i]];
      var cerrs := CheckChain(ir, v.chains[i], owner);
      errs := errs + cerrs;
    }
    assert v.chains[..|v.chains|] == v.chains;
    ghost var before := errs;
    for i := 0 to |v.listenerFilters|
      invariant AllAt(errs, ValidateStage)
      invariant errs == [] <==> before == [] && forall f :: f in v.listenerFilters[..i] ==> ListenerFilterClosed(ir, f)
    {
      var f := v.listenerFilters[i];
      assert v.listenerFilters[..i + 1] == v.listenerFilters[..i] + [f];
      var dangling := f.UdpProxy? && f.cluster != "" && f.cluster !in ir.clusters;
      assert dangling <==> !ListenerFilterClosed(ir, f);
      if dangling {
        errs := errs + [ValidateError(owner)];
      }
    }
    assert v.listenerFilters[..|v.listenerFilters|] == v.listenerFilters;
  }

  /** Stage F6 accepts exactly the closed resource sets. */
  method CheckCrossRefs(ir: IR) returns (errs: seq<CompileError>)
    ensures AllAt(errs, ValidateStage)
    ensures errs == [] <==> Closed(ir)
  {
    hide ListenerClosed, RoutesClosed;
    errs := [];
    var names := SortedKeys(ir.listeners.Keys);
    for i := 0 to |names|
      invariant AllAt(errs, ValidateStage)
      invariant errs == [] <==> forall k :: 0 <= k < i ==> ListenerClosed(ir, ir.listeners[names[k]])
    {
      var lerrs := CheckListener(ir, ir.listeners[names[i]], names[i]);
      errs := errs + lerrs;
    }
    assert errs == [] <==> forall n :: n in ir.listeners ==> ListenerClosed(ir, ir.listeners[n]);
    var cerrs := CheckEds(ir);
    var rerrs := CheckRoutes(ir);
    errs := errs + cerrs + rerrs;
  }

  method CheckEds(ir: IR) returns (errs: seq<CompileError>)
    ensures AllAt(errs, ValidateStage)
    ensures errs == [] <==> forall n :: n in ir.clusters && ir.clusters[n].edsConfig ==> n in ir.endpoints
  {
    errs := [];
    var names := SortedKeys(ir.clusters.Keys);
    for i := 0 to |names|
      invariant AllAt(errs, ValidateStage)
      invariant errs == [] <==> forall k :: 0 <= k < i && ir.clusters[names[k]].edsConfig ==> names[k] in ir.endpoints
    {
      if ir.clusters[names[i]].edsConfig && names[i] !in ir.endpoints {
        errs := errs + [ValidateError(names[i])];
      }
    }
  }

  method CheckRoutes(ir: IR) returns (errs: seq<CompileError>)
    ensures AllAt(errs, ValidateStage)
    ensures errs == [] <==> forall n :: n in ir.routes ==> RoutesClosed(ir, ir.routes[n])
  {
    hide RoutesClosed;
    errs := [];
    var names := SortedKeys(ir.routes.Keys);
    for i := 0 to |names|
      invariant AllAt(errs, ValidateStage)
      invariant errs == [] <==> forall k :: 0 <= k < i ==> RoutesClosed(ir, ir.routes[names[k]])
    {
      var rerrs := CheckRouteConfigRefs(ir, ir.routes[names[i]], names[i]);
      errs := errs + rerrs;
    }
  }
}
