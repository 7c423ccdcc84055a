/** Stage F3, listeners: filter chains are allocated here, and all chains of an HTTPS listener
    hold the same connection-manager object. */
module BuildListeners {
  import opened Text
  import opened Config
  import opened Link
  import opened LinkL4
  import opened Envoy
  import opened Policies
  import opened BuildValues
  import opened BuildRoutes
  import opened ListenerValues
  import opened Materialize
  import Names
  import Sorting

  /** Adjacent duplicates of a sorted list are squeezed out in the list's own backing array: the write
      position never overtakes the read position, so every comparison still sees the original neighbour. */
  method DedupSortedInPlace(names: array<string>) returns (n: nat)
    requires Sorting.Ascending(names[..])
    modifies names
    ensures n <= names.Length
    ensures Sorting.Distinct(names[..n]) && Sorting.Ascending(names[..n])
    ensures forall x :: x in names[..n] <==> x in old(names[..])
  {
    n := 0;
    ghost var was := names[..];
    for i := 0 to names.Length
      invariant n <= i
      invariant forall k :: n <= k < names.Length ==> names[k] == was[k]
      invariant i > 0 ==> n > 0 && names[n - 1] == was[i - 1]
      invariant forall x :: x in names[..n] <==> x in was[..i]
      invariant Sorting.Ascending(names[..n]) && Sorting.Distinct(names[..n])
    {
      assert was[..i + 1] == was[..i] + [was[i]];
      assert i > 0 ==> names[i - 1] == was[i - 1];
      var name := names[i];
      if i > 0 && names[i - 1] == name {
        continue;
      }
      assert i > 0 ==> Le(was[i - 1], was[i]);
      NewIsGreater(names[..n], was, i);
      names[n] := name;
      assert names[..n + 1] == names[..n] + [name];
      n := n + 1;
    }
    assert was[..names.Length] == was;
  }

  /** A name above the last kept one is new. */
  lemma NewIsGreater(kept: seq<string>, was: seq<string>, i: nat)
    requires i < |was| && Sorting.Ascending(was) && Sorting.Ascending(kept)
    requires i > 0 ==> kept != [] && kept[|kept| - 1] == was[i - 1] && was[i - 1] != was[i]
    requires forall x :: x in kept <==> x in was[..i]
    ensures was[i] !in kept
    ensures Sorting.Ascending(kept + [was[i]])
  {
    forall k | 0 <= k < |kept| ensures Le(kept[k], was[i]) && kept[k] != was[i] {
      assert kept[k] in kept;
      var j :| 0 <= j < i && was[j] == kept[k];
      assert Le(was[j], was[i]);
      if was[j] == was[i] {
        assert Le(was[j], was[i - 1]) || j == i - 1;
        assert Le(was[i - 1], was[i]);
        Text.LeAntisymmetric(was[i - 1], was[i]);
      }
    }
  }

  // HTTPS chains

  lemma ServerNamesStep(env: Env, certs: seq<CertificateEntry>, i: nat)
    requires i < |certs|
    ensures ServerNames(env, certs[..i + 1])
            == ServerNames(env, certs[..i])
               + if env.extract(certs[i].certFile).Some? then env.extract(certs[i].certFile).value else []
  {
    assert certs[..i + 1][..i] == certs[..i];
  }

  lemma CertificatesStep(env: Env, certs: seq<CertificateEntry>, i: nat)
    requires i < |certs|
    ensures CertificatesOk(env, certs[..i + 1]) <==> (
              && CertificatesOk(env, certs[..i])
              && env.extract(certs[i].certFile).Some? && env.extract(certs[i].certFile).value != []
              && Sorting.Distinct(env.extract(certs[i].certFile).value)
              && forall n :: n in env.extract(certs[i].certFile).value ==> n !in ServerNames(env, certs[..i]))
  {
    hide ServerNames;
    var c := certs[i];
    assert certs[..i + 1] == certs[..i] + [c];
    ServerNamesStep(env, certs, i);
    if env.extract(c.certFile).Some? {
      DistinctAppend(ServerNames(env, certs[..i]), env.extract(c.certFile).value);
    }
  }

  method ClaimNames(names: seq<string>, owner: string, claimed: set<string>) returns (now: set<string>,
      errs: seq<CompileError>)
    ensures AllAt(errs, BuildStage)
    ensures errs == [] <==> Sorting.Distinct(names) && forall n :: n in names ==> n !in claimed
    ensures now == claimed + set n | n in names
  {
    now, errs := claimed, [];
    for i := 0 to |names|
      invariant AllAt(errs, BuildStage)
      invariant errs == [] <==> Sorting.Distinct(names[..i]) && forall n :: n in names[..i] ==> n !in claimed
      invariant now == claimed + set n | n in names[..i]
    {
      assert names[..i + 1] == names[..i] + [names[i]];
      if names[i] in now {
        errs := errs + [BuildError(owner, "certFile")];
      }
      now := now + {names[i]};
    }
    assert names[..|names|] == names;
  }

  /** The chains built so far: fresh, distinct, all holding the one filter, chain i carrying certificate i. */
  ghost predicate HttpsChains(env: Env, tls: ListenerTls, hcm: Filter, chains: seq<FilterChain>)
    requires |chains| <= |tls.certificates|
    reads chains
  {
    && (forall i, j :: 0 <= i < j < |chains| ==> chains[i] != chains[j])
    && forall i :: 0 <= i < |chains| ==>
         && chains[i].filters == [hcm] && chains[i].tls == Some(TlsOf(tls, tls.certificates[i]))
         && env.extract(tls.certificates[i].certFile) == Some(chains[i].serverNames)
  }

  method BuildHttpsFilterChains(env: Env, l: Config.Listener, hcm: Filter) returns (chains: seq<FilterChain>,
      errs: seq<CompileError>)
    requires l.tls.Some?
    ensures AllAt(errs, BuildStage)
    ensures errs == [] <==> CertificatesOk(env, l.tls.value.certificates)
    ensures fresh(set c | c in chains)
    ensures forall i :: 0 <= i < |chains| ==> chains[i].filters == [hcm]
    ensures errs == [] ==> |chains| == |l.tls.value.certificates| && HttpsChains(env, l.tls.value, hcm, chains)
  {
    hide ServerNames, CertificatesOk, TlsOf;
    chains, errs := [], [];
    var certs := l.tls.value.certificates;
    var claimed: set<string> := {};
    NoCertificates(env);
    assert certs[..0] == [];
    for i := 0 to |certs|
      invariant AllAt(errs, BuildStage)
      invariant errs == [] <==> CertificatesOk(env, certs[..i])
      invariant errs == [] ==> forall n :: n in claimed <==> n in ServerNames(env, certs[..i])
      invariant fresh(set c | c in chains)
      invariant |chains| <= i && forall k :: 0 <= k < |chains| ==> chains[k].filters == [hcm]
      invariant errs == [] ==> |chains| == i && HttpsChains(env, l.tls.value, hcm, chains)
    {
      CertificatesStep(env, certs, i);
      ServerNamesStep(env, certs, i);
      var c := certs[i];
      var names := env.extract(c.certFile);
      if names.None? || names.value == [] {
        errs := errs + [BuildError(l.name, "certFile")];
      } else {
        var now, nerrs := ClaimNames(names.value, l.name, claimed);
        claimed, errs := now, errs + nerrs;
        var chain := new FilterChain(names.value, Some(TlsOf(l.tls.value, c)), [hcm]);
        chains := chains + [chain];
      }
    }
    assert certs[..|certs|] == certs;
  }

  lemma NoCertificates(env: Env)
    ensures CertificatesOk(env, []) && ServerNames(env, []) == []
  {
  }

  // One listener

  /** What a freshly built listener promises the later stages. */
  ghost predicate Built(lis: Envoy.Listener, v: ListenerView)
    reads lis.chains, FiltersOf(lis)
  {
    Shows(lis, v) && DistinctChains(lis) && SharedHcm(lis)
  }

  ghost predicate HttpOk(env: Env, lk: Linked, cs: ConfigSet, l: Config.Listener) {
    && OneProvider(WantedOn(lk, cs, l)) && RoutesOk(lk, cs, l, RoutesOf(cs, l))
    && (l.protocol.HTTPS? && l.tls.Some? ==> CertificatesOk(env, l.tls.value.certificates))
  }

  /** A listener whose chains share one filter is shown by its parts. */
  lemma OneFilterBuilt(lis: Envoy.Listener, v: ListenerView, f: Filter)
    requires v.name == lis.name && v.bound == lis.bound && v.listenerFilters == lis.listenerFilters
    requires |v.chains| == |lis.chains| && DistinctChains(lis)
    requires forall i :: 0 <= i < |lis.chains| ==> lis.chains[i].filters == [f]
    requires forall i :: 0 <= i < |lis.chains| ==>
      v.chains[i] == ChainView(lis.chains[i].serverNames, lis.chains[i].tls, [f.config])
    ensures Built(lis, v)
  {
    OnlyFilter(lis, f);
  }

  lemma OnlyFilter(lis: Envoy.Listener, f: Filter)
    requires forall i :: 0 <= i < |lis.chains| ==> lis.chains[i].filters == [f]
    ensures FiltersOf(lis) <= {f}
  {
  }

  method BuildHttpListener(env: Env, lk: Linked, cs: ConfigSet, l: Config.Listener, ctx: BuildContext)
    returns (lis: Envoy.Listener?, rc: RouteConfig, errs: seq<CompileError>)
    requires l.protocol.IsHttp() && Buildable(cs, l) && ctx.Valid()
    modifies ctx
    ensures ctx.Valid() && old(ctx.extAuth).Keys <= ctx.extAuth.Keys
    ensures AllAt(errs, BuildStage)
    ensures errs == [] <==> HttpOk(env, lk, cs, l)
    ensures errs == [] ==> rc == RouteConfigOf(env, lk, cs, l)
    ensures errs == [] ==> (lis != null <==> Produced(l))
    ensures lis != null ==> fresh(lis) && fresh(set c | c in lis.chains) && fresh(FiltersOf(lis))
    ensures lis != null && errs == [] ==> Built(lis, ViewOf(env, lk, cs, l))
    ensures errs == [] ==> ctx.extAuth == old(ctx.extAuth) + AuthOn(env, WantedOn(lk, cs, l))
  {
    hide OneProvider, RoutesOk, WantedOn, RoutesOf, CertificatesOk, HcmOf, RouteConfigOf, Built, FiltersOf, TlsOf;
    lis := null;
    var hcm;
    rc, hcm, errs := BuildHcm(env, lk, cs, l, ctx);
    var filter := new Filter(HcmFilter(hcm));
    if l.protocol.HTTPS? {
      var chains, cerrs := BuildHttpsFilterChains(env, l, filter);
      errs := errs + cerrs;
      if chains != [] {
        lis := new Envoy.Listener(Names.Listener(l.name), BoundTo(l), chains, [TlsInspector]);
        OnlyFilter(lis, filter);
        if errs == [] {
          OneFilterBuilt(lis, ViewOf(env, lk, cs, l), filter);
        }
      }
    } else {
      var chain := new FilterChain([], None, [filter]);
      lis := new Envoy.Listener(Names.Listener(l.name), BoundTo(l), [chain], []);
      OnlyFilter(lis, filter);
      if errs == [] {
        OneFilterBuilt(lis, ViewOf(env, lk, cs, l), filter);
      }
    }
  }

  method ForwardRoutesFor(cs: ConfigSet, listener: string) returns (rs: seq<Config.Route>)
    ensures rs == ForwardRoutes(SortedRoutes(cs), listener)
  {
    rs := [];
    var sorted := SortedRoutes(cs);
    for k := 0 to |sorted|
      invariant rs == ForwardRoutes(sorted[..k], listener)
    {
      assert sorted[..k + 1][..k] == sorted[..k];
      if sorted[k].IsForward() && AttachesTo(sorted[k], listener) {
        rs := rs + [sorted[k]];
      }
    }
    assert sorted[..|sorted|] == sorted;
  }

  method NormalizedHosts(hosts: seq<string>) returns (out: seq<string>)
    ensures out == Sorting.SortStrings(Norms(hosts))
  {
    var ns: seq<string> := [];
    for i := 0 to |hosts|
      invariant |ns| == i && forall k :: 0 <= k < i ==> ns[k] == Norm(hosts[k])
    {
      ns := ns + [Norm(hosts[i])];
    }
    assert ns == Norms(hosts);
    out := Sorting.SortStrings(ns);
  }

  method BuildSpecs(rs: seq<Config.Route>) returns (specs: seq<ChainSpec>)
    ensures specs == Specs(rs)
  {
    hide SpecOf;
    var raw: seq<ChainSpec> := [];
    for i := 0 to |rs|
      invariant |raw| == i && forall k :: 0 <= k < i ==> raw[k] == SpecOf(rs[k])
    {
      var spec := BuildSpec(rs[i]);
      raw := raw + [spec];
    }
    assert raw == seq(|rs|, i requires 0 <= i < |rs| => SpecOf(rs[i]));
    specs := Sorting.Sort(raw, SpecLe);
  }

  method BuildSpec(r: Config.Route) returns (spec: ChainSpec)
    ensures spec == SpecOf(r)
  {
    var hosts := NormalizedHosts(SniHosts(r));
    spec := ChainSpec(r, hosts);
  }

  /** A chain with a filter of its own. */
  method NewChain(serverNames: seq<string>, config: FilterConfig) returns (c: FilterChain)
    ensures fresh(c) && |c.filters| == 1 && fresh(c.filters[0])
    ensures c.serverNames == serverNames && c.tls == None && c.filters[0].config == config
  {
    var filter := new Filter(config);
    c := new FilterChain(serverNames, None, [filter]);
  }

  ghost predicate OwnFilter(c: FilterChain, cv: ChainView)
    reads c, c.filters
  {
    && |c.filters| == 1 && c.tls == None && cv == ChainView(c.serverNames, None, [c.filters[0].config])
    && !c.filters[0].config.HcmFilter?
  }

  method BuildPassthroughChains(specs: seq<ChainSpec>) returns (chains: seq<FilterChain>)
    ensures |chains| == |specs|
    ensures forall i :: 0 <= i < |chains| ==>
      fresh(chains[i]) && OwnFilter(chains[i], PassthroughChain(specs[i])) && fresh(chains[i].filters[0])
    ensures forall i, j :: 0 <= i < j < |chains| ==> chains[i] != chains[j]
  {
    chains := [];
    for i := 0 to |specs|
      invariant |chains| == i
      invariant forall k :: 0 <= k < i ==>
        fresh(chains[k]) && OwnFilter(chains[k], PassthroughChain(specs[k])) && fresh(chains[k].filters[0])
      invariant forall k, m :: 0 <= k < m < i ==> chains[k] != chains[m]
    {
      var chain := NewChain(specs[i].hosts, TcpProxy(ClusterFor(specs[i].route)));
      chains := chains + [chain];
    }
  }

  lemma OneFilterEach(lis: Envoy.Listener, f: Filter) returns (i: nat)
    requires f in FiltersOf(lis) && forall k :: 0 <= k < |lis.chains| ==> |lis.chains[k].filters| == 1
    ensures i < |lis.chains| && lis.chains[i].filters[0] == f
  {
    var k, j :| 0 <= k < |lis.chains| && 0 <= j < |lis.chains[k].filters| && lis.chains[k].filters[j] == f;
    i := k;
  }

  lemma NoHcmIsShared(lis: Envoy.Listener)
    requires forall i :: 0 <= i < |lis.chains| ==>
      |lis.chains[i].filters| == 1 && !lis.chains[i].filters[0].config.HcmFilter?
    ensures SharedHcm(lis)
  {
    forall f | f in FiltersOf(lis) ensures !f.config.HcmFilter? {
      var i := OneFilterEach(lis, f);
    }
  }

  lemma L4Built(lis: Envoy.Listener, v: ListenerView)
    requires v.name == lis.name && v.bound == lis.bound && v.listenerFilters == lis.listenerFilters
    requires |v.chains| == |lis.chains|
    requires forall i :: 0 <= i < |lis.chains| ==> OwnFilter(lis.chains[i], v.chains[i])
    requires DistinctChains(lis)
    ensures Built(lis, v)
  {
    hide SharedHcm, DistinctChains, FiltersOf;
    forall i | 0 <= i < |lis.chains|
      ensures |lis.chains[i].filters| == 1 && !lis.chains[i].filters[0].config.HcmFilter?
    {
      assert OwnFilter(lis.chains[i], v.chains[i]);
    }
    NoHcmIsShared(lis);
    forall i | 0 <= i < |lis.chains| ensures ShowsChain(lis.chains[i], v.chains[i]) {
      assert OwnFilter(lis.chains[i], v.chains[i]);
    }
  }

  method BuildL4Listener(env: Env, lk: Linked, cs: ConfigSet, l: Config.Listener) returns (lis: Envoy.Listener)
    requires !l.protocol.IsHttp() && Buildable(cs, l)
    ensures fresh(lis) && fresh(set c | c in lis.chains) && fresh(FiltersOf(lis))
    ensures Built(lis, ViewOf(env, lk, cs, l))
  {
    hide Built, Specs, FiltersOf;
    var rs := ForwardRoutesFor(cs, l.name);
    var name := Names.Listener(l.name);
    match l.protocol {
      case TCP =>
        var chain := NewChain([], TcpProxy(ClusterFor(rs[0])));
        lis := new Envoy.Listener(name, BoundTo(l), [chain], []);
      case UDP =>
        lis := new Envoy.Listener(name, BoundTo(l), [], [UdpProxy(ClusterFor(rs[0]))]);
      case _ =>
        var specs := BuildSpecs(rs);
        var chains := BuildPassthroughChains(specs);
        lis := new Envoy.Listener(name, BoundTo(l), chains, [TlsInspector]);
    }
    L4Built(lis, ViewOf(env, lk, cs, l));
    forall f | f in FiltersOf(lis) ensures fresh(f) {
      var i := OneFilterEach(lis, f);
    }
  }
}
