/** The link checks that look at policy types, certificate files and the environment. */
module LinkChecks {
  import opened Text
  import opened Config
  import opened Link
  import opened Policies
  import opened BuildValues
  import Build

  // Attachment levels

  predicate IsAccess(lk: Linked, a: Attachment) {
    Picks(lk, a, PickIpAccess).Some?
  }

  ghost predicate NoAccess(lk: Linked, atts: seq<Attachment>) {
    forall i :: 0 <= i < |atts| ==> !IsAccess(lk, atts[i])
  }

  /** No rule carries an ipAccess policy of its own. */
  ghost predicate LevelsOk(lk: Linked, cs: ConfigSet) {
    forall r, rule :: r in cs.routes && rule in r.rules ==> NoAccess(lk, rule.policies)
  }

  method CheckRuleLevel(lk: Linked, route: string, atts: seq<Attachment>) returns (errs: seq<CompileError>)
    ensures AllAt(errs, LinkStage)
    ensures errs == [] <==> NoAccess(lk, atts)
  {
    errs := [];
    for i := 0 to |atts|
      invariant AllAt(errs, LinkStage)
      invariant errs == [] <==> forall k :: 0 <= k < i ==> !IsAccess(lk, atts[k])
    {
      if IsAccess(lk, atts[i]) {
        errs := errs + [LinkError(route, "spec.rules.policies")];
      }
    }
  }

  method CheckRouteLevels(lk: Linked, r: Route) returns (errs: seq<CompileError>)
    ensures AllAt(errs, LinkStage)
    ensures errs == [] <==> forall rule :: rule in r.rules ==> NoAccess(lk, rule.policies)
  {
    hide NoAccess;
    errs := [];
    for i := 0 to |r.rules|
      invariant AllAt(errs, LinkStage)
      invariant errs == [] <==> forall rule :: rule in r.rules[..i] ==> NoAccess(lk, rule.policies)
    {
      assert r.rules[..i + 1] == r.rules[..i] + [r.rules[i]];
      var more := CheckRuleLevel(lk, r.name, r.rules[i].policies);
      errs := errs + more;
    }
    assert r.rules[..|r.rules|] == r.rules;
  }

  method CheckPolicyAttachmentLevels(cs: ConfigSet, lk: Linked) returns (errs: seq<CompileError>)
    ensures AllAt(errs, LinkStage)
    ensures errs == [] <==> LevelsOk(lk, cs)
  {
    hide NoAccess;
    errs := [];
    for i := 0 to |cs.routes|
      invariant AllAt(errs, LinkStage)
      invariant errs == []
                <==> forall r, rule :: r in cs.routes[..i] && rule in r.rules ==> NoAccess(lk, rule.policies)
    {
      assert cs.routes[..i + 1] == cs.routes[..i] + [cs.routes[i]];
      var more := CheckRouteLevels(lk, cs.routes[i]);
      errs := errs + more;
    }
    assert cs.routes[..|cs.routes|] == cs.routes;
  }

  /** So all rules of a route on a listener are under one ipAccess policy, that of the nearest outer level. */
  lemma AccessIsPerRoute(lk: Linked, cs: ConfigSet, l: Listener, r: Route, rule: Rule)
    requires LevelsOk(lk, cs) && r in cs.routes && rule in r.rules
    ensures EffectiveOn(lk, cs, l, r, rule).ipAccess
            == Fold(lk, cs.gatewayPolicies + l.policies + r.policies).ipAccess
    ensures Nearest(lk, cs, l, r, rule, PickIpAccess)
            == Nearest(lk, cs, l, r, rule.(policies := []), PickIpAccess)
  {
    hide Fold;
    NoneToPick(lk, rule.policies, |rule.policies|);
    FourLevels(Levels(cs, l, r, rule));
    AccessUntouched(lk, cs.gatewayPolicies + l.policies + r.policies, rule.policies, |rule.policies|);
    assert rule.policies[..|rule.policies|] == rule.policies;
  }

  lemma {:induction false} NoneToPick(lk: Linked, atts: seq<Attachment>, n: nat)
    requires NoAccess(lk, atts) && n <= |atts|
    ensures LastPick(lk, atts[..n], PickIpAccess).None? && atts[..|atts|] == atts
  {
    if n > 0 {
      assert atts[..n][..n - 1] == atts[..n - 1];
      assert !IsAccess(lk, atts[n - 1]);
      NoneToPick(lk, atts, n - 1);
    }
  }

  lemma {:induction false} AccessUntouched(lk: Linked, outer: seq<Attachment>, inner: seq<Attachment>, n: nat)
    requires NoAccess(lk, inner) && n <= |inner|
    ensures Fold(lk, outer + inner[..n]).ipAccess == Fold(lk, outer).ipAccess
  {
    hide Fold, IsAccess;
    if n == 0 {
      assert outer + inner[..0] == outer;
    } else {
      AccessUntouched(lk, outer, inner, n - 1);
      assert outer + inner[..n] == (outer + inner[..n - 1]) + [inner[n - 1]];
      OneMoreKeepsAccess(lk, outer + inner[..n - 1], inner[n - 1]);
    }
  }

  lemma OneMoreKeepsAccess(lk: Linked, atts: seq<Attachment>, a: Attachment)
    requires !IsAccess(lk, a)
    ensures Fold(lk, atts + [a]).ipAccess == Fold(lk, atts).ipAccess
  {
    assert (atts + [a])[..|atts|] == atts;
  }

  // Certificates

  /** Every certificate and key are a pair, and a client CA file holds a certificate. */
  ghost predicate FilesOk(env: Env, t: ListenerTls) {
    && (forall i :: 0 <= i < |t.certificates| ==> env.keyPair(t.certificates[i].certFile, t.certificates[i].keyFile))
    && (t.clientCa != "" ==> env.caFile(t.clientCa))
  }

  ghost predicate AllFilesOk(env: Env, ls: seq<Listener>) {
    forall l :: l in ls && l.tls.Some? ==> FilesOk(env, l.tls.value)
  }

  method CheckTlsFiles(env: Env, owner: string, t: ListenerTls) returns (errs: seq<CompileError>)
    ensures AllAt(errs, LinkStage)
    ensures errs == [] <==> FilesOk(env, t)
  {
    errs := [];
    var cs := t.certificates;
    for i := 0 to |cs|
      invariant AllAt(errs, LinkStage)
      invariant errs == [] <==> forall k :: 0 <= k < i ==> env.keyPair(cs[k].certFile, cs[k].keyFile)
    {
      if !env.keyPair(cs[i].certFile, cs[i].keyFile) {
        errs := errs + [LinkError(owner, "spec.tls.certificates.certFile")];
      }
    }
    if t.clientCa != "" && !env.caFile(t.clientCa) {
      errs := errs + [LinkError(owner, "spec.tls.clientCA")];
    }
  }

  method CheckCertificates(env: Env, cs: ConfigSet) returns (errs: seq<CompileError>)
    ensures AllAt(errs, LinkStage)
    ensures errs == [] <==> AllFilesOk(env, cs.listeners)
  {
    hide FilesOk;
    errs := [];
    for i := 0 to |cs.listeners|
      invariant AllAt(errs, LinkStage)
      invariant errs == [] <==> AllFilesOk(env, cs.listeners[..i])
    {
      var l := cs.listeners[i];
      assert cs.listeners[..i + 1] == cs.listeners[..i] + [l];
      if l.tls.Some? {
        var more := CheckTlsFiles(env, l.name, l.tls.value);
        errs := errs + more;
      }
    }
    assert cs.listeners[..|cs.listeners|] == cs.listeners;
  }

  // Kubernetes services

  method CheckKubernetesService(env: Env, cs: ConfigSet) returns (errs: seq<CompileError>)
    ensures AllAt(errs, LinkStage)
    ensures errs == [] <==> env.endpointSource || Build.NoKubernetes(cs.upstreams)
  {
    errs := [];
    if env.endpointSource {
      return;
    }
    for i := 0 to |cs.upstreams|
      invariant AllAt(errs, LinkStage)
      invariant errs == [] <==> Build.NoKubernetes(cs.upstreams[..i])
    {
      assert cs.upstreams[..i + 1] == cs.upstreams[..i] + [cs.upstreams[i]];
      if cs.upstreams[i].source.KubernetesService? {
        errs := errs + [LinkError(cs.upstreams[i].name, "spec.kubernetesService")];
      }
    }
    assert cs.upstreams[..|cs.upstreams|] == cs.upstreams;
  }

  /** What the three checks demand together. */
  ghost predicate ChecksOk(env: Env, lk: Linked, cs: ConfigSet) {
    LevelsOk(lk, cs) && AllFilesOk(env, cs.listeners) && (env.endpointSource || Build.NoKubernetes(cs.upstreams))
  }
}
