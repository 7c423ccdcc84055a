/** Stage F2: reference resolution and the semantic checks that keep the later stages
    from failing. Every check is a loop that collects errors; its contract says exactly
    which configurations leave the error list empty. */
module Link {
  import opened Text
  import opened Config
  import Sorting

  datatype Stage = LinkStage | BuildStage | PatchStage | ValidateStage

  datatype CompileError = CompileError(stage: Stage, source: string, path: string)

  ghost predicate AllAt(errs: seq<CompileError>, stage: Stage) {
    forall e :: e in errs ==> e.stage == stage
  }

  function LinkError(source: string, path: string): CompileError {
    CompileError(LinkStage, source, path)
  }

  /** The name index built from a configuration set. */
  datatype Linked = Linked(
    listeners: map<string, Listener>, upstreams: map<string, Upstream>, policies: map<string, PolicySpec>)

  ghost predicate Indexes(lk: Linked, cs: ConfigSet) {
    && (forall n :: n in lk.listeners ==> lk.listeners[n] in cs.listeners && lk.listeners[n].name == n)
    && (forall l :: l in cs.listeners ==> l.name in lk.listeners && lk.listeners[l.name] == l)
    && (forall n :: n in lk.upstreams ==> lk.upstreams[n] in cs.upstreams && lk.upstreams[n].name == n)
    && (forall u :: u in cs.upstreams ==> u.name in lk.upstreams && lk.upstreams[u.name] == u)
    && (forall n :: n in lk.policies ==> Policy(n, lk.policies[n]) in cs.policies)
    && (forall p :: p in cs.policies ==> p.name in lk.policies && lk.policies[p.name] == p.spec)
  }

  method BuildIndex(cs: ConfigSet) returns (lk: Linked)
    requires WellFormed(cs)
    ensures Indexes(lk, cs)
  {
    var ls: map<string, Listener> := map[];
    for i := 0 to |cs.listeners|
      invariant forall n :: n in ls ==> ls[n] in cs.listeners[..i] && ls[n].name == n
      invariant forall k :: 0 <= k < i ==> cs.listeners[k].name in ls && ls[cs.listeners[k].name] == cs.listeners[k]
    {
      ls := ls[cs.listeners[i].name := cs.listeners[i]];
    }
    var us: map<string, Upstream> := map[];
    for i := 0 to |cs.upstreams|
      invariant forall n :: n in us ==> us[n] in cs.upstreams[..i] && us[n].name == n
      invariant forall k :: 0 <= k < i ==> cs.upstreams[k].name in us && us[cs.upstreams[k].name] == cs.upstreams[k]
    {
      us := us[cs.upstreams[i].name := cs.upstreams[i]];
    }
    var ps: map<string, PolicySpec> := map[];
    for i := 0 to |cs.policies|
      invariant forall n :: n in ps ==> Policy(n, ps[n]) in cs.policies[..i]
      invariant forall k :: 0 <= k < i ==> cs.policies[k].name in ps && ps[cs.policies[k].name] == cs.policies[k].spec
    {
      var p := cs.policies[i];
      assert cs.policies[..i + 1] == cs.policies[..i] + [Policy(p.name, p.spec)];
      ps := ps[p.name := p.spec];
    }
    lk := Linked(ls, us, ps);
  }

  // Reference resolution

  ghost predicate RefsResolve(lk: Linked, atts: seq<Attachment>) {
    forall a :: a in atts ==> a.Ref? ==> a.name in lk.policies
  }

  ghost predicate RuleResolves(lk: Linked, rule: Rule) {
    && (rule.action.Forwarding? ==> forall b :: b in rule.action.backends ==> b.upstream in lk.upstreams)
    && RefsResolve(lk, rule.policies)
  }

  ghost predicate RouteResolves(lk: Linked, r: Route) {
    && (forall n :: n in r.listeners ==> n in lk.listeners)
    && RefsResolve(lk, r.policies)
    && (r.forward.Some? ==> r.forward.value.upstream in lk.upstreams)
    && (forall rule :: rule in r.rules ==> RuleResolves(lk, rule))
  }

  ghost predicate NoDanglingReference(lk: Linked, cs: ConfigSet) {
    && RefsResolve(lk, cs.gatewayPolicies)
    && (forall l :: l in cs.listeners ==> RefsResolve(lk, l.policies))
    && (forall r :: r in cs.routes ==> RouteResolves(lk, r))
  }

  method ResolvePolicyRefs(owner: string, atts: seq<Attachment>, lk: Linked) returns (errs: seq<CompileError>)
    ensures AllAt(errs, LinkStage)
    ensures errs == [] <==> RefsResolve(lk, atts)
  {
    errs := [];
    for i := 0 to |atts|
      invariant AllAt(errs, LinkStage)
      invariant errs == [] <==> RefsResolve(lk, atts[..i])
    {
      assert atts[..i + 1] == atts[..i] + [atts[i]];
      if atts[i].Ref? && atts[i].name !in lk.policies {
        errs := errs + [LinkError(owner, "policies")];
      }
    }
    assert atts[..|atts|] == atts;
  }

  method ResolveRule(owner: string, rule: Rule, lk: Linked) returns (errs: seq<CompileError>)
    ensures AllAt(errs, LinkStage)
    ensures errs == [] <==> RuleResolves(lk, rule)
  {
    errs := [];
    if rule.action.Forwarding? {
      var bs := rule.action.backends;
      for j := 0 to |bs|
        invariant AllAt(errs, LinkStage)
        invariant errs == [] <==> forall b :: b in bs[..j] ==> b.upstream in lk.upstreams
      {
        assert bs[..j + 1] == bs[..j] + [bs[j]];
        if bs[j].upstream !in lk.upstreams {
          errs := errs + [LinkError(owner, "backends.upstream")];
        }
      }
      assert bs[..|bs|] == bs;
    }
    var perrs := ResolvePolicyRefs(owner, rule.policies, lk);
    errs := errs + perrs;
  }

  method ResolveRoute(r: Route, lk: Linked) returns (errs: seq<CompileError>)
    ensures AllAt(errs, LinkStage)
    ensures errs == [] <==> RouteResolves(lk, r)
  {
    errs := [];
    for i := 0 to |r.listeners|
      invariant AllAt(errs, LinkStage)
      invariant errs == [] <==> forall n :: n in r.listeners[..i] ==> n in lk.listeners
    {
      assert r.listeners[..i + 1] == r.listeners[..i] + [r.listeners[i]];
      if r.listeners[i] !in lk.listeners {
        errs := errs + [LinkError(r.name, "spec.listeners")];
      }
    }
    assert r.listeners[..|r.listeners|] == r.listeners;
    var perrs := ResolvePolicyRefs(r.name, r.policies, lk);
    errs := errs + perrs;
    if r.forward.Some? && r.forward.value.upstream !in lk.upstreams {
      errs := errs + [LinkError(r.name, "spec.forward.upstream")];
    }
    var before := errs;
    for i := 0 to |r.rules|
      invariant AllAt(errs, LinkStage)
      invariant errs == [] <==> before == [] && forall rule :: rule in r.rules[..i] ==> RuleResolves(lk, rule)
    {
      assert r.rules[..i + 1] == r.rules[..i] + [r.rules[i]];
      var rerrs := ResolveRule(r.name, r.rules[i], lk);
      errs := errs + rerrs;
    }
    assert r.rules[..|r.rules|] == r.rules;
  }

  method ResolveReferences(cs: ConfigSet, lk: Linked) returns (errs: seq<CompileError>)
    ensures AllAt(errs, LinkStage)
    ensures errs == [] <==> NoDanglingReference(lk, cs)
  {
    errs := ResolvePolicyRefs("gateway", cs.gatewayPolicies, lk);
    for i := 0 to |cs.listeners|
      invariant AllAt(errs, LinkStage)
      invariant errs == [] <==> RefsResolve(lk, cs.gatewayPolicies)
                                && forall l :: l in cs.listeners[..i] ==> RefsResolve(lk, l.policies)
    {
      assert cs.listeners[..i + 1] == cs.listeners[..i] + [cs.listeners[i]];
      var perrs := ResolvePolicyRefs(cs.listeners[i].name, cs.listeners[i].policies, lk);
      errs := errs + perrs;
    }
    assert cs.listeners[..|cs.listeners|] == cs.listeners;
    var before := errs;
    for i := 0 to |cs.routes|
      invariant AllAt(errs, LinkStage)
      invariant errs == [] <==> before == [] && forall r :: r in cs.routes[..i] ==> RouteResolves(lk, r)
    {
      assert cs.routes[..i + 1] == cs.routes[..i] + [cs.routes[i]];
      var rerrs := ResolveRoute(cs.routes[i], lk);
      errs := errs + rerrs;
    }
    assert cs.routes[..|cs.routes|] == cs.routes;
  }

  // Listener addresses

  ghost predicate AddressesUnique(ls: seq<Listener>) {
    forall i, j :: 0 <= i < j < |ls| ==> ls[i].address != ls[j].address || ls[i].port != ls[j].port
  }

  function AddressKey(l: Listener): string {
    JoinHostPort(l.address, l.port)
  }

  lemma AddressStep(ls: seq<Listener>, l: Listener)
    ensures AddressesUnique(ls + [l])
            <==> (AddressesUnique(ls) && forall m :: m in ls ==> AddressKey(m) != AddressKey(l))
  {
    var all := ls + [l];
    if AddressesUnique(all) {
      forall m | m in ls ensures AddressKey(m) != AddressKey(l) {
        var k :| 0 <= k < |ls| && ls[k] == m;
        assert all[k] == m && all[|ls|] == l;
        if AddressKey(m) == AddressKey(l) {
          JoinHostPortInjective(m.address, m.port, l.address, l.port);
        }
      }
      forall i, j | 0 <= i < j < |ls| ensures ls[i].address != ls[j].address || ls[i].port != ls[j].port {
        assert all[i] == ls[i] && all[j] == ls[j];
      }
    } else {
      var i, j :| 0 <= i < j < |all| && all[i].address == all[j].address && all[i].port == all[j].port;
      assert j == |ls| ==> all[i] in ls && AddressKey(all[i]) == AddressKey(l);
    }
  }

  method CheckListenerAddressUnique(cs: ConfigSet) returns (errs: seq<CompileError>)
    ensures AllAt(errs, LinkStage)
    ensures errs == [] <==> AddressesUnique(cs.listeners)
  {
    hide AddressKey, AddressesUnique;
    errs := [];
    var seen := {};
    assert AddressesUnique([]) by { NoAddresses(); }
    assert cs.listeners[..0] == [];
    for i := 0 to |cs.listeners|
      invariant AllAt(errs, LinkStage)
      invariant seen == set m | m in cs.listeners[..i] :: AddressKey(m)
      invariant errs == [] <==> AddressesUnique(cs.listeners[..i])
    {
      var l := cs.listeners[i];
      assert cs.listeners[..i + 1] == cs.listeners[..i] + [l];
      AddressStep(cs.listeners[..i], l);
      var key := AddressKey(l);
      if key in seen {
        errs := errs + [LinkError(l.name, "spec.port")];
      } else {
        seen := seen + {key};
      }
    }
    assert cs.listeners[..|cs.listeners|] == cs.listeners;
  }

  lemma NoAddresses()
    ensures AddressesUnique([])
  {
  }

  // Route form against listener protocol

  ghost predicate AttachmentFits(lk: Linked, r: Route, name: string) {
    name in lk.listeners ==>
      var p := lk.listeners[name].protocol;
      && (p.IsHttp() ==> r.forward.None?)
      && (!p.IsHttp() ==> r.rules == [])
      && (r.forward.Some? && r.forward.value.sniHosts != [] ==> p.TLS?)
  }

  ghost predicate RouteFormOk(lk: Linked, r: Route) {
    && (r.rules != [] <==> r.forward.None?)
    && forall n :: n in r.listeners ==> AttachmentFits(lk, r, n)
  }

  method CheckRouteForm(cs: ConfigSet, lk: Linked) returns (errs: seq<CompileError>)
    ensures AllAt(errs, LinkStage)
    ensures errs == [] <==> forall r :: r in cs.routes ==> RouteFormOk(lk, r)
  {
    errs := [];
    for k := 0 to |cs.routes|
      invariant AllAt(errs, LinkStage)
      invariant errs == [] <==> forall r :: r in cs.routes[..k] ==> RouteFormOk(lk, r)
    {
      assert cs.routes[..k + 1] == cs.routes[..k] + [cs.routes[k]];
      var rerrs := CheckOneRouteForm(cs.routes[k], lk);
      errs := errs + rerrs;
    }
    assert cs.routes[..|cs.routes|] == cs.routes;
  }

  method CheckOneRouteForm(r: Route, lk: Linked) returns (errs: seq<CompileError>)
    ensures AllAt(errs, LinkStage)
    ensures errs == [] <==> RouteFormOk(lk, r)
  {
    errs := [];
    var hasRules, hasForward := r.rules != [], r.forward.Some?;
    if hasRules && hasForward {
      return [LinkError(r.name, "spec.forward")];
    }
    if !hasRules && !hasForward {
      return [LinkError(r.name, "spec")];
    }
    for i := 0 to |r.listeners|
      invariant AllAt(errs, LinkStage)
      invariant errs == [] <==> forall n :: n in r.listeners[..i] ==> AttachmentFits(lk, r, n)
    {
      assert r.listeners[..i + 1] == r.listeners[..i] + [r.listeners[i]];
      ghost var before := errs;
      if r.listeners[i] in lk.listeners {
        var p := lk.listeners[r.listeners[i]].protocol;
        if p.IsHttp() && hasForward {
          errs := errs + [LinkError(r.name, "spec.listeners")];
        } else if !p.IsHttp() && hasRules {
          errs := errs + [LinkError(r.name, "spec.listeners")];
        }
        if hasForward && |r.forward.value.sniHosts| > 0 && !p.TLS? {
          errs := errs + [LinkError(r.name, "spec.forward.sniHosts")];
        }
      }
      assert errs == [] <==> before == [] && AttachmentFits(lk, r, r.listeners[i]);
    }
    assert r.listeners[..|r.listeners|] == r.listeners;
  }

  // TLS termination

  ghost predicate TlsRulesOk(cs: ConfigSet) {
    forall l :: l in cs.listeners ==> (l.protocol.HTTPS? <==> l.tls.Some?)
  }

  method CheckTlsRules(cs: ConfigSet) returns (errs: seq<CompileError>)
    ensures AllAt(errs, LinkStage)
    ensures errs == [] <==> TlsRulesOk(cs)
  {
    errs := [];
    for i := 0 to |cs.listeners|
      invariant AllAt(errs, LinkStage)
      invariant errs == [] <==> forall l :: l in cs.listeners[..i] ==> (l.protocol.HTTPS? <==> l.tls.Some?)
    {
      assert cs.listeners[..i + 1] == cs.listeners[..i] + [cs.listeners[i]];
      var l := cs.listeners[i];
      match l.protocol {
        case HTTPS => if l.tls.None? { errs := errs + [LinkError(l.name, "spec.tls")]; }
        case _ => if l.tls.Some? { errs := errs + [LinkError(l.name, "spec.tls")]; }
      }
    }
    assert cs.listeners[..|cs.listeners|] == cs.listeners;
  }
}
