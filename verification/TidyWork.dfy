/** Work sets without dangling references or foreign TLS material: both materializations accept them and
    both results pass F6. */
module TidyWork {
  import opened Text
  import opened Envoy
  import opened Shaping
  import opened Link
  import opened Materialize
  import opened WorkSet
  import opened Synthesis
  import opened CrossRefs
  import opened ModeEquivalence
  import opened CompiledSecrets
  import Names
  import Sorting

  /** One inline certificate, and a client CA only inline. */
  ghost predicate TidyTls(t: TlsContext) {
    && |t.certs| == 1 && t.certSds == [] && !t.validation.SdsValidation?
    && (t.validation.InlineValidation? ==> t.validation.ctx.trustedCa.Some?)
  }

  ghost predicate TidyChain(c: ChainView) {
    c.tls.Some? ==> TidyTls(c.tls.value)
  }

  /** All chains that check client certificates do so against one CA. */
  ghost predicate OneCa(v: ListenerView) {
    forall i, j :: 0 <= i < |v.chains| && 0 <= j < |v.chains| && HasCa(v.chains[i]) && HasCa(v.chains[j])
      ==> v.chains[i].tls.value.validation == v.chains[j].tls.value.validation
  }

  ghost predicate TidyListener(v: ListenerView) {
    && OneCa(v) && v.name == Names.Listener(Owner(v)) && Names.Simple(Owner(v))
    && forall i :: 0 <= i < |v.chains| ==> TidyChain(v.chains[i])
  }

  ghost predicate TidyCluster(c: ClusterView) {
    !c.edsConfig && !c.discovery.Eds? && !c.discovery.CustomType?
    && (c.assignment.Some? ==> c.assignment.value.clusterName == c.name)
  }

  ghost predicate HasCluster(w: WorkView, n: string) {
    exists i :: 0 <= i < |w.clusters| && w.clusters[i].name == n
  }

  ghost predicate HcmRefers(w: WorkView, h: Hcm) {
    && h.routes.Rds? && FindRoute(w.routes, h.routes.name).Some?
    && forall f :: f in h.httpFilters && f.ExtAuthz? ==> HasCluster(w, f.cluster)
  }

  ghost predicate FilterRefers(w: WorkView, f: FilterConfig) {
    && (f.TcpProxy? ==> HasCluster(w, f.cluster))
    && (f.HcmFilter? ==> HcmRefers(w, f.hcm))
  }

  ghost predicate ListenerRefers(w: WorkView, v: ListenerView) {
    && (forall i, j :: 0 <= i < |v.chains| && 0 <= j < |v.chains[i].filters| ==>
           FilterRefers(w, v.chains[i].filters[j]))
    && (forall f :: f in v.listenerFilters && f.UdpProxy? ==> HasCluster(w, f.cluster))
  }

  ghost predicate RouteRefers(w: WorkView, rc: RouteConfig) {
    forall v, r, c :: v in rc.vhosts && r in v.routes && c in r.action.Clusters() ==> HasCluster(w, c)
  }

  ghost predicate Refers(w: WorkView) {
    && (forall i :: 0 <= i < |w.listeners| ==> ListenerRefers(w, w.listeners[i]))
    && (forall i :: 0 <= i < |w.routes| ==> RouteRefers(w, w.routes[i]))
  }

  ghost predicate Tidy(w: WorkView) {
    && Unique(w.listeners, ListenerName) && Unique(w.routes, RouteName) && Unique(w.clusters, ClusterName)
    && (forall i :: 0 <= i < |w.listeners| ==> TidyListener(w.listeners[i]))
    && (forall i :: 0 <= i < |w.clusters| ==> TidyCluster(w.clusters[i]))
    && w.endpoints == [] && w.secrets == AllSecrets(w.listeners)
    && w.compiledListeners == (set v | v in w.listeners :: v.name)
    && w.compiledSecrets == (set s | s in w.secrets :: s.name)
    && Refers(w)
  }

  // Secrets of the whole work set

  lemma {:induction false} SecretHasListener(vs: seq<ListenerView>, s: Secret) returns (i: nat)
    requires s in AllSecrets(vs)
    ensures i < |vs| && s in SecretsOf(vs[i])
  {
    var rest := vs[..|vs| - 1];
    if s in AllSecrets(rest) {
      i := SecretHasListener(rest, s);
    } else {
      i := |vs| - 1;
    }
  }

  lemma {:induction false} ListenerSecretListed(vs: seq<ListenerView>, i: nat, s: Secret)
    requires i < |vs| && s in SecretsOf(vs[i])
    ensures s in AllSecrets(vs)
  {
    if i < |vs| - 1 {
      ListenerSecretListed(vs[..|vs| - 1], i, s);
    }
  }

  /** A listener's secrets carry its name, and nobody else's. */
  lemma SecretOwned(v: ListenerView, s: Secret, owner: string)
    requires TidyListener(v) && s in SecretsOf(v) && Names.Simple(owner)
    ensures Names.BelongsTo(s.name, owner) <==> owner == Owner(v)
  {
    SecretsComeFromChains(Owner(v), v.chains, |v.chains|, s);
    if s.name == Names.ClientCa(Owner(v)) {
      Names.ClientCaBelongs(Owner(v), owner);
    } else {
      var k :| 0 <= k < |v.chains| && s.name == Names.Secret(Owner(v), Ordinal(v.chains, k));
      Names.SecretBelongs(Owner(v), owner, Ordinal(v.chains, k));
    }
  }

  lemma {:induction false} SecretsUnique(vs: seq<ListenerView>)
    requires Unique(vs, ListenerName) && forall i :: 0 <= i < |vs| ==> TidyListener(vs[i])
    ensures UniqueSecrets(AllSecrets(vs))
  {
    if vs != [] {
      var rest, last := vs[..|vs| - 1], vs[|vs| - 1];
      SecretsUnique(rest);
      ListenerSecretsUnique(Owner(last), last.chains, |last.chains|);
      forall s, t | s in AllSecrets(rest) && t in SecretsOf(last) ensures s.name != t.name {
        var i := SecretHasListener(rest, s);
        SecretOwned(vs[i], s, Owner(last));
        SecretOwned(last, t, Owner(last));
        assert ListenerName(vs[i]) != ListenerName(last);
      }
      AppendUnique(AllSecrets(rest), SecretsOf(last));
    }
  }

  lemma {:induction false} FindUnique(ss: seq<Secret>, s: Secret)
    requires UniqueSecrets(ss) && s in ss
    ensures FindSecret(ss, s.name) == Some(s)
  {
    var f := FindSecret(ss, s.name);
    var i :| 0 <= i < |ss| && ss[i] == s;
    var j :| 0 <= j < |ss| && ss[j] == f.value;
    assert i < j ==> NameOfSecret(ss[i]) != NameOfSecret(ss[j]);
    assert j < i ==> NameOfSecret(ss[j]) != NameOfSecret(ss[i]);
  }

  /** Chain k of a tidy listener finds its own certificate, and the client CA if it wants one. */
  lemma ChainFindsSecrets(w: WorkView, i: nat, k: nat)
    requires Tidy(w) && i < |w.listeners| && k < |w.listeners[i].chains| && w.listeners[i].chains[k].tls.Some?
    ensures var v := w.listeners[i];
            var n, t := Ordinal(v.chains, k), v.chains[k].tls.value;
            && t.certs != []
            && CertSecret(w.secrets, Owner(v), n) == Some(Secret(Names.Secret(Owner(v), n), TlsCertificate(t.certs[0])))
            && (t.validation.InlineValidation? ==> CaSecret(w.secrets, Owner(v)) == Some(t.validation.ctx))
  {
    hide Ordinal, SecretsUpTo, Refers;
    var v := w.listeners[i];
    assert TidyChain(v.chains[k]);
    SecretsUnique(w.listeners);
    CertIsListed(Owner(v), v.chains, |v.chains|, k);
    var s := Secret(Names.Secret(Owner(v), Ordinal(v.chains, k)), TlsCertificate(v.chains[k].tls.value.certs[0]));
    ListenerSecretListed(w.listeners, i, s);
    FindUnique(w.secrets, s);
    if v.chains[k].tls.value.validation.InlineValidation? {
      var ca := CaIsListed(Owner(v), v.chains, |v.chains|, k);
      SecretsComeFromChains(Owner(v), v.chains, |v.chains|, ca);
      var m :| && 0 <= m < |v.chains| && HasCa(v.chains[m])
               && ca == Secret(Names.ClientCa(Owner(v)), CaValidation(v.chains[m].tls.value.validation.ctx));
      assert v.chains[k].tls.value.validation == v.chains[m].tls.value.validation;
      ListenerSecretListed(w.listeners, i, ca);
      FindUnique(w.secrets, ca);
    }
  }

  /** No compiled secret of a tidy listener is an orphan. */
  lemma SecretsAreUsed(w: WorkView, i: nat)
    requires Tidy(w) && i < |w.listeners|
    ensures AllUsed(Owner(w.listeners[i]), w.secrets, w.compiledSecrets, w.listeners[i].chains)
  {
    hide Ordinal, SecretsUpTo, Refers, CertSecret, CaSecret;
    var v := w.listeners[i];
    forall n | n in w.compiledSecrets && Names.BelongsTo(n, Owner(v))
      ensures exists k :: 0 <= k < |v.chains| && ChainUses(Owner(v), w.secrets, v.chains, k, n)
    {
      var s :| s in w.secrets && s.name == n;
      var j := SecretHasListener(w.listeners, s);
      SecretOwned(w.listeners[j], s, Owner(v));
      assert ListenerName(w.listeners[j]) == ListenerName(v);
      SecretsComeFromChains(Owner(v), v.chains, |v.chains|, s);
      var k := UsingChain(v, s);
      ChainFindsSecrets(w, i, k);
      assert ChainUses(Owner(v), w.secrets, v.chains, k, n);
    }
  }

  lemma UsingChain(v: ListenerView, s: Secret) returns (k: nat)
    requires FromChain(Owner(v), v.chains, |v.chains|, s)
    ensures k < |v.chains| && v.chains[k].tls.Some?
    ensures || s.name == Names.Secret(Owner(v), Ordinal(v.chains, k))
            || (s.name == Names.ClientCa(Owner(v)) && HasCa(v.chains[k]))
  {
    hide Ordinal;
    if j :| && 0 <= j < |v.chains| && HasCa(v.chains[j])
            && s == Secret(Names.ClientCa(Owner(v)), CaValidation(v.chains[j].tls.value.validation.ctx)) {
      k := j;
    } else {
      k :| 0 <= k < |v.chains| && v.chains[k].tls.Some? && v.chains[k].tls.value.certs != []
        && s == Secret(Names.Secret(Owner(v), Ordinal(v.chains, k)), TlsCertificate(v.chains[k].tls.value.certs[0]));
    }
  }

  // Both materializations succeed

  lemma {:induction false} FirstHcmInIsThere(fs: seq<FilterConfig>) returns (j: nat)
    requires FirstHcmIn(fs).Some?
    ensures j < |fs| && fs[j] == HcmFilter(FirstHcmIn(fs).value)
  {
    if fs[0].HcmFilter? {
      j := 0;
    } else {
      j := FirstHcmInIsThere(fs[1..]);
      j := j + 1;
    }
  }

  lemma {:induction false} FirstHcmIsThere(chains: seq<ChainView>) returns (i: nat, j: nat)
    requires FirstHcm(chains).Some?
    ensures i < |chains| && j < |chains[i].filters| && chains[i].filters[j] == HcmFilter(FirstHcm(chains).value)
  {
    if FirstHcmIn(chains[0].filters).Some? {
      i := 0;
      j := FirstHcmInIsThere(chains[0].filters);
    } else {
      i, j := FirstHcmIsThere(chains[1..]);
      i := i + 1;
    }
  }

  lemma RoutesAreFound(w: WorkView, v: ListenerView)
    requires ListenerRefers(w, v)
    ensures RouteFound(w.routes, v.chains)
  {
    if FirstHcm(v.chains).Some? {
      var i, j := FirstHcmIsThere(v.chains);
      assert FilterRefers(w, v.chains[i].filters[j]);
    }
  }

  lemma ListenerMaterializes(w: WorkView, i: nat)
    requires Tidy(w) && i < |w.listeners|
    ensures SdsListenerOk(Owner(w.listeners[i]), w.secrets, w.compiledSecrets, w.listeners[i].chains)
    ensures StaticListenerOk(Owner(w.listeners[i]), w.secrets, w.compiledSecrets, w.routes, w.listeners[i].chains)
  {
    hide Ordinal, AllUsed, CertSecret, CaSecret, RouteFound;
    var v := w.listeners[i];
    SecretsAreUsed(w, i);
    assert ListenerRefers(w, v);
    RoutesAreFound(w, v);
    forall k | 0 <= k < |v.chains|
      ensures SdsOkAt(Owner(v), w.secrets, v.chains, k) && StaticOkAt(Owner(v), w.secrets, v.chains, k)
    {
      if v.chains[k].tls.Some? {
        ChainFindsSecrets(w, i, k);
      }
    }
  }

  lemma BothAccept(w: WorkView)
    requires Tidy(w)
    ensures XdsWorkOk(w) && StaticWorkOk(w)
  {
    hide SdsListenerOk, StaticListenerOk;
    forall i | 0 <= i < |w.listeners|
      ensures XdsOk(w.listeners[i], w.compiledListeners, w.secrets, w.compiledSecrets)
      ensures StaticOk(w.listeners[i], w.compiledListeners, w.secrets, w.compiledSecrets, w.routes)
    {
      ListenerMaterializes(w, i);
    }
  }

  lemma TidyIsClean(w: WorkView)
    requires Tidy(w)
    ensures UniqueNames(w) && Clean(w)
  {
    hide Refers, AllSecrets;
    SecretsUnique(w.listeners);
    assert Unique(w.secrets, SecretName) by {
      forall i, j | 0 <= i < |w.secrets| && 0 <= j < |w.secrets| && SecretName(w.secrets[i]) == SecretName(w.secrets[j])
        ensures i == j
      {
        assert i < j ==> NameOfSecret(w.secrets[i]) != NameOfSecret(w.secrets[j]);
        assert j < i ==> NameOfSecret(w.secrets[j]) != NameOfSecret(w.secrets[i]);
      }
    }
    forall i | 0 <= i < |w.listeners| ensures NoCertReference(w.listeners[i]) {
      forall k | 0 <= k < |w.listeners[i].chains| && w.listeners[i].chains[k].tls.Some?
        ensures w.listeners[i].chains[k].tls.value.certSds == []
      {
        assert TidyChain(w.listeners[i].chains[k]);
      }
    }
    forall i | 0 <= i < |w.clusters| ensures MovesCleanly(w.clusters[i]) {
      assert TidyCluster(w.clusters[i]);
    }
  }
}
