/** Stage F5 in place: the same work set is rewritten either into references (xDS) or into
    inline resources (static). */
module Materialize {
  import opened Text
  import opened Envoy
  import opened Shaping
  import opened Link
  import Names

  function PatchError(resource: string): CompileError {
    CompileError(PatchStage, resource, "")
  }

  ghost predicate DistinctChains(l: Listener) {
    forall i, j :: 0 <= i < j < |l.chains| ==> l.chains[i] != l.chains[j]
  }

  method CheckOrphanSecrets(owner: string, compiled: set<string>, used: set<string>) returns (errs: seq<CompileError>)
    ensures AllAt(errs, PatchStage)
    ensures errs == [] <==> NoOrphan(owner, compiled, used)
  {
    errs := [];
    var todo := compiled;
    while todo != {}
      invariant todo <= compiled
      invariant AllAt(errs, PatchStage)
      invariant errs == [] <==> NoOrphan(owner, compiled - todo, used)
    {
      var n :| n in todo;
      todo := todo - {n};
      assert compiled - todo == (compiled - (todo + {n})) + {n};
      if Names.BelongsTo(n, owner) && n !in used {
        errs := errs + [PatchError(n)];
      }
    }
    assert compiled - todo == compiled;
  }

  /** The TLS part of one chain in xDS mode. */
  method ReferenceChain(c: FilterChain, owner: string, k: nat, secrets: seq<Secret>) returns (errs: seq<CompileError>,
      used: set<string>)
    requires c.tls.Some?
    modifies c
    ensures c.tls == Some(SdsTls(owner, k, secrets, old(c.tls.value)))
    ensures AllAt(errs, PatchStage)
    ensures errs == [] <==> (
              && CertSecret(secrets, owner, k).Some?
              && (old(c.tls.value.validation).InlineValidation? ==> CaSecret(secrets, owner).Some?))
    ensures var ca := old(c.tls.value.validation).InlineValidation? && CaSecret(secrets, owner).Some?;
            used == if CertSecret(secrets, owner, k).None? then {}
                    else {Names.Secret(owner, k)} + if ca then {Names.ClientCa(owner)} else {}
  {
    errs, used := [], {};
    var t := c.tls.value;
    var secretName := Names.Secret(owner, k);
    if FindSecret(secrets, secretName).None? {
      return [PatchError(secretName)], {};
    }
    used := {secretName};
    var validation := t.validation;
    if t.validation.InlineValidation? {
      var caName := Names.ClientCa(owner);
      var secret := FindSecret(secrets, caName);
      if secret.None? || !secret.value.content.CaValidation? {
        errs := [PatchError(caName)];
      } else {
        used := used + {caName};
        validation := SdsValidation(caName);
      }
    }
    c.tls := Some(t.(certs := [], certSds := [secretName], validation := validation));
  }

  /** The TLS part of one chain in static mode. */
  method InlineChain(c: FilterChain, owner: string, k: nat, secrets: seq<Secret>) returns (errs: seq<CompileError>,
      used: set<string>)
    requires c.tls.Some?
    modifies c
    ensures c.tls == Some(StaticTls(owner, k, secrets, old(c.tls.value)))
    ensures AllAt(errs, PatchStage)
    ensures errs == [] <==> (
              && CertSecret(secrets, owner, k).Some? && CertSecret(secrets, owner, k).value.content.TlsCertificate?
              && (old(c.tls.value.validation).InlineValidation? ==> CaSecret(secrets, owner).Some?))
    ensures errs == [] ==>
      used == {Names.Secret(owner, k)}
              + if old(c.tls.value.validation).InlineValidation? then {Names.ClientCa(owner)} else {}
  {
    errs, used := [], {};
    var t := c.tls.value;
    var secretName := Names.Secret(owner, k);
    var secret := FindSecret(secrets, secretName);
    if secret.None? {
      return [PatchError(secretName)], {};
    }
    used := {secretName};
    if !secret.value.content.TlsCertificate? {
      return [PatchError(secretName)], used;
    }
    var validation := t.validation;
    if t.validation.InlineValidation? {
      var caName := Names.ClientCa(owner);
      var ca := FindSecret(secrets, caName);
      if ca.None? || !ca.value.content.CaValidation? {
        errs := [PatchError(caName)];
      } else {
        used := used + {caName};
        validation := InlineValidation(ca.value.content.ctx);
      }
    }
    c.tls := Some(t.(certs := [secret.value.content.cert], validation := validation));
  }

  ghost predicate SdsListenerOk(owner: string, secrets: seq<Secret>, compiled: set<string>, chains: seq<ChainView>) {
    && AllSdsOk(owner, secrets, chains, |chains|)
    && AllUsed(owner, secrets, compiled, chains)
  }

  /** used holds exactly the secrets of the first i chains. */
  ghost predicate UsedSoFar(owner: string, secrets: seq<Secret>, chains: seq<ChainView>, i: nat, used: set<string>)
    requires i <= |chains|
  {
    forall n :: n in used <==> exists k :: 0 <= k < i && ChainUses(owner, secrets, chains, k, n)
  }

  lemma UsedStep(owner: string, secrets: seq<Secret>, chains: seq<ChainView>, i: nat, used: set<string>,
      more: set<string>)
    requires i < |chains| && UsedSoFar(owner, secrets, chains, i, used)
    requires forall n :: n in more <==> ChainUses(owner, secrets, chains, i, n)
    ensures UsedSoFar(owner, secrets, chains, i + 1, used + more)
  {
    forall n ensures n in used + more <==> exists k :: 0 <= k < i + 1 && ChainUses(owner, secrets, chains, k, n) {
      if n in more {
        assert ChainUses(owner, secrets, chains, i, n);
      }
    }
  }

  lemma UsedAll(owner: string, secrets: seq<Secret>, compiled: set<string>, chains: seq<ChainView>, used: set<string>)
    requires UsedSoFar(owner, secrets, chains, |chains|, used)
    ensures NoOrphan(owner, compiled, used) <==> AllUsed(owner, secrets, compiled, chains)
  {
  }

  ghost predicate SameTls(l: Listener, chains: seq<ChainView>)
    requires |chains| == |l.chains|
    reads l.chains
  {
    forall k :: 0 <= k < |l.chains| ==> l.chains[k].tls == chains[k].tls
  }

  method ReferenceChains(lis: Listener, owner: string, secrets: seq<Secret>, ghost v: ListenerView)
    returns (errs: seq<CompileError>, used: set<string>)
    requires |v.chains| == |lis.chains| && SameTls(lis, v.chains) && DistinctChains(lis)
    modifies lis.chains
    ensures forall k :: 0 <= k < |lis.chains| ==> lis.chains[k].tls == SdsChainAt(owner, secrets, v.chains, k).tls
    ensures AllAt(errs, PatchStage)
    ensures errs == [] <==> AllSdsOk(owner, secrets, v.chains, |v.chains|)
    ensures UsedSoFar(owner, secrets, v.chains, |v.chains|, used)
  {
    hide Ordinal, FindSecret;
    errs, used := [], {};
    var certIdx := 0;
    OrdinalZero(v.chains);
    for i := 0 to |lis.chains|
      invariant certIdx == Ordinal(v.chains, i)
      invariant forall k :: 0 <= k < i ==> lis.chains[k].tls == SdsChainAt(owner, secrets, v.chains, k).tls
      invariant forall k :: i <= k < |lis.chains| ==> lis.chains[k].tls == v.chains[k].tls
      invariant UsedSoFar(owner, secrets, v.chains, i, used)
      invariant AllAt(errs, PatchStage)
      invariant errs == [] <==> AllSdsOk(owner, secrets, v.chains, i)
    {
      var c := lis.chains[i];
      OrdinalStep(v.chains, i);
      var cerrs, cused := [], {};
      if c.tls.Some? {
        cerrs, cused := ReferenceChain(c, owner, certIdx, secrets);
        certIdx := certIdx + 1;
      }
      assert c.tls == SdsChainAt(owner, secrets, v.chains, i).tls;
      assert cerrs == [] <==> SdsOkAt(owner, secrets, v.chains, i);
      assert AllSdsOk(owner, secrets, v.chains, i + 1) <==> AllSdsOk(owner, secrets, v.chains, i) && cerrs == [];
      UsedStep(owner, secrets, v.chains, i, used, cused);
      used, errs := used + cused, errs + cerrs;
    }
  }

  /** xDS: the listener's certificates and client CA become SDS references. */
  method ReferenceSds(lis: Listener, secrets: seq<Secret>, compiled: set<string>,
      ghost v: ListenerView) returns (errs: seq<CompileError>)
    requires Shows(lis, v) && DistinctChains(lis)
    modifies lis.chains
    ensures Shows(lis, SdsListener(Names.TrimPrefix(lis.name, "lis/"), secrets, v))
    ensures AllAt(errs, PatchStage)
    ensures errs == [] <==> SdsListenerOk(Names.TrimPrefix(lis.name, "lis/"), secrets, compiled, v.chains)
  {
    hide AllUsed, NoOrphan, UsedSoFar, AllSdsOk, Ordinal, SdsChain;
    var owner := Names.TrimPrefix(lis.name, "lis/");
    assert forall k :: 0 <= k < |lis.chains| ==> ShowsChain(lis.chains[k], v.chains[k]);
    var cerrs, used := ReferenceChains(lis, owner, secrets, v);
    UsedAll(owner, secrets, compiled, v.chains, used);
    var oerrs := CheckOrphanSecrets(owner, compiled, used);
    errs := cerrs + oerrs;
    ghost var w := SdsListener(owner, secrets, v);
    forall k | 0 <= k < |lis.chains| ensures ShowsChain(lis.chains[k], w.chains[k]) {
      assert old(ShowsChain(lis.chains[k], v.chains[k]));
      SdsKeepsRest(owner, secrets, v.chains, k);
    }
  }

  method InlineChains(lis: Listener, owner: string, secrets: seq<Secret>, ghost v: ListenerView)
    returns (errs: seq<CompileError>, used: set<string>)
    requires |v.chains| == |lis.chains| && SameTls(lis, v.chains) && DistinctChains(lis)
    modifies lis.chains
    ensures forall k :: 0 <= k < |lis.chains| ==> lis.chains[k].tls == StaticSocket(owner, secrets, v.chains, k)
    ensures AllAt(errs, PatchStage)
    ensures errs == [] <==> AllStaticOk(owner, secrets, v.chains, |v.chains|)
    ensures errs == [] ==> UsedSoFar(owner, secrets, v.chains, |v.chains|, used)
  {
    hide Ordinal, FindSecret;
    errs, used := [], {};
    var certIdx := 0;
    OrdinalZero(v.chains);
    for i := 0 to |lis.chains|
      invariant certIdx == Ordinal(v.chains, i)
      invariant forall k :: 0 <= k < i ==> lis.chains[k].tls == StaticSocket(owner, secrets, v.chains, k)
      invariant forall k :: i <= k < |lis.chains| ==> lis.chains[k].tls == v.chains[k].tls
      invariant AllAt(errs, PatchStage)
      invariant errs == [] <==> AllStaticOk(owner, secrets, v.chains, i)
      invariant errs == [] ==> UsedSoFar(owner, secrets, v.chains, i, used)
    {
      var c := lis.chains[i];
      OrdinalStep(v.chains, i);
      var cerrs, cused := [], {};
      if c.tls.Some? {
        cerrs, cused := InlineChain(c, owner, certIdx, secrets);
        certIdx := certIdx + 1;
      }
      assert c.tls == StaticSocket(owner, secrets, v.chains, i);
      assert cerrs == [] <==> StaticOkAt(owner, secrets, v.chains, i);
      assert AllStaticOk(owner, secrets, v.chains, i + 1) <==> AllStaticOk(owner, secrets, v.chains, i) && cerrs == [];
      if errs + cerrs == [] {
        UsedStep(owner, secrets, v.chains, i, used, cused);
      }
      used, errs := used + cused, errs + cerrs;
    }
  }

  method FindHcmIn(c: FilterChain, ghost cv: ChainView) returns (f: Filter?)
    requires ShowsChain(c, cv)
    ensures f == null <==> FirstHcmIn(cv.filters).None?
    ensures f != null ==> f in c.filters && f.config.HcmFilter? && FirstHcmIn(cv.filters) == Some(f.config.hcm)
  {
    f := null;
    for j := 0 to |c.filters|
      invariant FirstHcmIn(cv.filters) == FirstHcmIn(cv.filters[j..])
    {
      assert cv.filters[j..][0] == c.filters[j].config && cv.filters[j..][1..] == cv.filters[j + 1..];
      if c.filters[j].config.HcmFilter? {
        return c.filters[j];
      }
    }
  }

  method FindHcmFilter(lis: Listener, ghost v: ListenerView) returns (f: Filter?)
    requires Shows(lis, v)
    ensures f == null <==> FirstHcm(v.chains).None?
    ensures f != null ==> f in FiltersOf(lis) && f.config.HcmFilter? && FirstHcm(v.chains) == Some(f.config.hcm)
  {
    f := null;
    for i := 0 to |lis.chains|
      invariant f == null && FirstHcm(v.chains) == FirstHcm(v.chains[i..])
    {
      assert v.chains[i..][0] == v.chains[i] && v.chains[i..][1..] == v.chains[i + 1..];
      assert ShowsChain(lis.chains[i], v.chains[i]);
      f := FindHcmIn(lis.chains[i], v.chains[i]);
      if f != null {
        var j :| 0 <= j < |lis.chains[i].filters| && lis.chains[i].filters[j] == f;
        return;
      }
    }
  }

  /** All connection-manager positions of the listener hold one filter object. */
  ghost predicate SharedHcm(l: Listener)
    reads FiltersOf(l)
  {
    forall f, g :: f in FiltersOf(l) && g in FiltersOf(l) && f.config.HcmFilter? && g.config.HcmFilter? ==> f == g
  }

  /** The route configuration that the static shape takes out of the route set for this listener. */
  function InlinedName(routes: seq<RouteConfig>, chains: seq<ChainView>): set<string> {
    var h := FirstHcm(chains);
    if h.Some? && h.value.routes.Rds? && FindRoute(routes, h.value.routes.name).Some? then {h.value.routes.name} else {}
  }

  lemma FilterIsShown(l: Listener, v: ListenerView, g: Filter) returns (i: nat, j: nat)
    requires Shows(l, v) && g in FiltersOf(l)
    ensures i < |l.chains| && j < |l.chains[i].filters| && l.chains[i].filters[j] == g
    ensures j < |v.chains[i].filters| && v.chains[i].filters[j] == g.config
  {
    i, j :| 0 <= i < |l.chains| && 0 <= j < |l.chains[i].filters| && l.chains[i].filters[j] == g;
    assert ShowsChain(l.chains[i], v.chains[i]);
  }

  method InlineRouteConfig(lis: Listener, routes: seq<RouteConfig>, inlined: set<string>, ghost v: ListenerView)
    returns (errs: seq<CompileError>, now: set<string>)
    requires Shows(lis, v)
    modifies FiltersOf(lis)
    ensures AllAt(errs, PatchStage)
    ensures errs == [] <==> RouteFound(routes, v.chains)
    ensures now == inlined + InlinedName(routes, v.chains)
    ensures forall g :: g in FiltersOf(lis) ==> Inlined(old(g.config), g.config, routes, now)
    ensures errs == [] && old(SharedHcm(lis)) ==>
              forall g :: g in FiltersOf(lis) && g.config.HcmFilter? ==> !g.config.hcm.routes.Rds?
  {
    errs, now := [], inlined;
    var f := FindHcmFilter(lis, v);
    if f == null {
      forall g | g in FiltersOf(lis) ensures !g.config.HcmFilter? {
        var i, j := FilterIsShown(lis, v, g);
        assert v.chains[i] in v.chains && v.chains[i].filters[j] in v.chains[i].filters;
      }
    } else {
      var hcm := f.config.hcm;
      if hcm.routes.Rds? {
        var rc := FindRoute(routes, hcm.routes.name);
        if rc.None? {
          errs := [PatchError(lis.name)];
        } else {
          f.config := HcmFilter(hcm.(routes := InlineRoutes(rc.value)));
          now := now + {hcm.routes.name};
        }
      }
    }
  }

  ghost predicate StaticListenerOk(owner: string, secrets: seq<Secret>, compiled: set<string>, routes: seq<RouteConfig>,
      chains: seq<ChainView>) {
    && RouteFound(routes, chains)
    && AllStaticOk(owner, secrets, chains, |chains|)
    && AllUsed(owner, secrets, compiled, chains)
  }

  ghost predicate NoRdsLeft(v: ListenerView) {
    forall i, j :: 0 <= i < |v.chains| && 0 <= j < |v.chains[i].filters| && v.chains[i].filters[j].HcmFilter?
      ==> !v.chains[i].filters[j].hcm.routes.Rds?
  }

  /** Static: the listener's route reference, certificates and client CA are written inline. Whatever
      filter objects the chains share, only route references to inlined configurations change; if the
      connection manager is one shared object, no route reference remains. */
  method InlineListener(lis: Listener, secrets: seq<Secret>, compiled: set<string>, routes: seq<RouteConfig>,
      inlined: set<string>, ghost v: ListenerView)
    returns (errs: seq<CompileError>, now: set<string>)
    requires Shows(lis, v) && DistinctChains(lis)
    modifies lis.chains, FiltersOf(lis)
    ensures AllAt(errs, PatchStage)
    ensures errs == [] <==> StaticListenerOk(Names.TrimPrefix(lis.name, "lis/"), secrets, compiled, routes, v.chains)
    ensures now == inlined + InlinedName(routes, v.chains)
    ensures forall w :: Shows(lis, w) ==> StaticListener(Names.TrimPrefix(lis.name, "lis/"), secrets, routes, now, v, w)
    ensures errs == [] && old(SharedHcm(lis)) ==> forall w :: Shows(lis, w) ==> NoRdsLeft(w)
  {
    hide StaticSocket, Inlined, AllStaticOk, AllUsed, RouteFound, InlinedName, UsedSoFar;
    var owner := Names.TrimPrefix(lis.name, "lis/");
    assert forall k :: 0 <= k < |lis.chains| ==> ShowsChain(lis.chains[k], v.chains[k]);
    var rerrs;
    rerrs, now := InlineRouteConfig(lis, routes, inlined, v);
    label routed:
    var cerrs, used := InlineChains(lis, owner, secrets, v);
    if cerrs == [] {
      UsedAll(owner, secrets, compiled, v.chains, used);
    }
    var oerrs := CheckOrphanSecrets(owner, compiled, used);
    errs := rerrs + cerrs + oerrs;
    forall w | Shows(lis, w)
      ensures StaticListener(owner, secrets, routes, now, v, w)
      ensures errs == [] && old(SharedHcm(lis)) ==> NoRdsLeft(w)
    {
      forall i | 0 <= i < |lis.chains|
        ensures StaticChain(v.chains[i], w.chains[i], routes, now)
        ensures w.chains[i].tls == StaticSocket(owner, secrets, v.chains, i)
        ensures errs == [] && old(SharedHcm(lis)) ==>
                  forall j :: 0 <= j < |w.chains[i].filters| && w.chains[i].filters[j].HcmFilter? ==>
                    !w.chains[i].filters[j].hcm.routes.Rds?
      {
        assert ShowsChain(lis.chains[i], w.chains[i]);
        assert old(ShowsChain(lis.chains[i], v.chains[i]));
        forall j | 0 <= j < |lis.chains[i].filters|
          ensures Inlined(v.chains[i].filters[j], w.chains[i].filters[j], routes, now)
        {
          assert lis.chains[i].filters[j] in FiltersOf(lis);
        }
      }
    }
  }
}
