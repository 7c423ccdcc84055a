/** Stage F4 without escape hatches: the certificates and client CAs of compiled listeners are
    extracted into named secrets. */
module CompiledSecrets {
  import opened Text
  import opened Envoy
  import opened Shaping
  import opened WorkSet
  import Names
  import Sorting

  predicate HasCa(c: ChainView) {
    && c.tls.Some? && c.tls.value.validation.InlineValidation? && c.tls.value.validation.ctx.trustedCa.Some?
  }

  function CertPart(owner: string, k: nat, c: ChainView): seq<Secret> {
    if c.tls.Some? && c.tls.value.certs != []
    then [Secret(Names.Secret(owner, k), TlsCertificate(c.tls.value.certs[0]))]
    else []
  }

  predicate CaSeen(chains: seq<ChainView>, n: nat)
    requires n <= |chains|
  {
    exists k :: 0 <= k < n && HasCa(chains[k])
  }

  function CaPart(owner: string, chains: seq<ChainView>, n: nat): seq<Secret>
    requires n < |chains|
  {
    if HasCa(chains[n]) && !CaSeen(chains, n)
    then [Secret(Names.ClientCa(owner), CaValidation(chains[n].tls.value.validation.ctx))]
    else []
  }

  /** The secrets of the first n chains. */
  function SecretsUpTo(owner: string, chains: seq<ChainView>, n: nat): seq<Secret>
    requires n <= |chains|
  {
    if n == 0 then []
    else
      SecretsUpTo(owner, chains, n - 1) + CertPart(owner, Ordinal(chains, n - 1), chains[n - 1])
      + CaPart(owner, chains, n - 1)
  }

  function SecretsOf(v: ListenerView): seq<Secret> {
    SecretsUpTo(Owner(v), v.chains, |v.chains|)
  }

  function AllSecrets(vs: seq<ListenerView>): seq<Secret> {
    if vs == [] then [] else AllSecrets(vs[..|vs| - 1]) + SecretsOf(vs[|vs| - 1])
  }

  method ExtractFromListener(lis: Listener, owner: string, ghost v: ListenerView) returns (out: seq<Secret>)
    requires Shows(lis, v) && owner == Owner(v)
    ensures out == SecretsOf(v)
  {
    hide Ordinal;
    out := [];
    var certIdx := 0;
    var clientCaExtracted := false;
    OrdinalZero(v.chains);
    for i := 0 to |lis.chains|
      invariant certIdx == Ordinal(v.chains, i)
      invariant clientCaExtracted <==> CaSeen(v.chains, i)
      invariant out == SecretsUpTo(owner, v.chains, i)
    {
      var c := lis.chains[i];
      assert ShowsChain(c, v.chains[i]);
      OrdinalStep(v.chains, i);
      if c.tls.Some? {
        var t := c.tls.value;
        if t.certs != [] {
          out := out + [Secret(Names.Secret(owner, certIdx), TlsCertificate(t.certs[0]))];
        }
        if !clientCaExtracted && t.validation.InlineValidation? && t.validation.ctx.trustedCa.Some? {
          out := out + [Secret(Names.ClientCa(owner), CaValidation(t.validation.ctx))];
          clientCaExtracted := true;
        }
        certIdx := certIdx + 1;
      }
    }
  }

  /** Every listener of the work set is a compiled one here: EnvoyResources are merged later. */
  method ExtractCompiledSecrets(ls: seq<Listener>, ghost vs: seq<ListenerView>) returns (secrets: seq<Secret>,
      compiledListeners: set<string>, compiledSecrets: set<string>)
    requires ShowAll(ls, vs)
    ensures secrets == AllSecrets(vs)
    ensures compiledListeners == set v | v in vs :: v.name
    ensures compiledSecrets == set s | s in secrets :: s.name
  {
    hide SecretsOf, AllSecrets, ListenerNames, SecretNames;
    secrets, compiledListeners, compiledSecrets := [], {}, {};
    NothingExtracted(vs);
    for i := 0 to |ls|
      invariant ShowAll(ls, vs) && secrets == AllSecrets(vs[..i])
      invariant compiledListeners == ListenerNames(vs[..i]) && compiledSecrets == SecretNames(secrets)
    {
      ShowsName(ls[i], vs[i]);
      compiledListeners := compiledListeners + {ls[i].name};
      var more := ExtractFromListener(ls[i], Names.TrimPrefix(ls[i].name, "lis/"), vs[i]);
      OneMoreExtracted(vs, i, secrets, more);
      secrets := secrets + more;
      compiledSecrets := compiledSecrets + set s | s in more :: s.name;
    }
    AllExtracted(vs, secrets);
  }

  ghost function ListenerNames(vs: seq<ListenerView>): set<string> {
    set v | v in vs :: v.name
  }

  ghost function SecretNames(ss: seq<Secret>): set<string> {
    set s | s in ss :: s.name
  }

  lemma NothingExtracted(vs: seq<ListenerView>)
    ensures AllSecrets(vs[..0]) == [] && ListenerNames(vs[..0]) == {} && SecretNames([]) == {}
  {
  }

  lemma OneMoreExtracted(vs: seq<ListenerView>, i: nat, ss: seq<Secret>, more: seq<Secret>)
    requires i < |vs|
    ensures AllSecrets(vs[..i + 1]) == AllSecrets(vs[..i]) + SecretsOf(vs[i])
    ensures ListenerNames(vs[..i + 1]) == ListenerNames(vs[..i]) + {vs[i].name}
    ensures SecretNames(ss + more) == SecretNames(ss) + set s | s in more :: s.name
  {
    hide SecretsOf;
    assert vs[..i + 1] == vs[..i] + [vs[i]] && vs[..i + 1][..i] == vs[..i];
  }

  lemma AllExtracted(vs: seq<ListenerView>, ss: seq<Secret>)
    ensures vs[..|vs|] == vs && ListenerNames(vs) == (set v | v in vs :: v.name)
    ensures SecretNames(ss) == (set s | s in ss :: s.name)
  {
  }

  // Looking secrets up

  lemma OrdinalGrows(chains: seq<ChainView>, i: nat, j: nat)
    requires i < j <= |chains| && chains[i].tls.Some?
    ensures Ordinal(chains, i) < Ordinal(chains, j)
  {
    if i + 1 < j {
      OrdinalGrows(chains, i, j - 1);
    }
  }

  ghost predicate FromChain(owner: string, chains: seq<ChainView>, n: nat, s: Secret)
    requires n <= |chains|
  {
    || (exists k :: 0 <= k < n && chains[k].tls.Some? && chains[k].tls.value.certs != []
                    && s.name == Names.Secret(owner, Ordinal(chains, k))
                    && s.content == TlsCertificate(chains[k].tls.value.certs[0]))
    || (exists k :: && 0 <= k < n && HasCa(chains[k])
                    && s == Secret(Names.ClientCa(owner), CaValidation(chains[k].tls.value.validation.ctx)))
  }

  lemma {:induction false} SecretsComeFromChains(owner: string, chains: seq<ChainView>, n: nat, s: Secret)
    requires n <= |chains| && s in SecretsUpTo(owner, chains, n)
    ensures FromChain(owner, chains, n, s)
  {
    if s in SecretsUpTo(owner, chains, n - 1) {
      SecretsComeFromChains(owner, chains, n - 1, s);
    } else if s in CertPart(owner, Ordinal(chains, n - 1), chains[n - 1]) {
      assert chains[n - 1].tls.Some?;
    } else {
      assert HasCa(chains[n - 1]);
    }
  }

  lemma {:induction false} CertIsListed(owner: string, chains: seq<ChainView>, n: nat, k: nat)
    requires k < n <= |chains| && chains[k].tls.Some? && chains[k].tls.value.certs != []
    ensures Secret(Names.Secret(owner, Ordinal(chains, k)), TlsCertificate(chains[k].tls.value.certs[0]))
            in SecretsUpTo(owner, chains, n)
  {
    if k < n - 1 {
      CertIsListed(owner, chains, n - 1, k);
    }
  }

  lemma {:induction false} CaIsListed(owner: string, chains: seq<ChainView>, n: nat, k: nat) returns (s: Secret)
    requires k < n <= |chains| && HasCa(chains[k])
    ensures s in SecretsUpTo(owner, chains, n) && s.name == Names.ClientCa(owner) && s.content.CaValidation?
  {
    hide Ordinal, CertPart;
    if CaSeen(chains, n - 1) {
      var m :| 0 <= m < n - 1 && HasCa(chains[m]);
      s := CaIsListed(owner, chains, n - 1, m);
    } else {
      assert k == n - 1;
      s := CaPart(owner, chains, n - 1)[0];
    }
  }

  function NameOfSecret(s: Secret): string { s.name }

  ghost predicate UniqueSecrets(ss: seq<Secret>) {
    Sorting.DistinctBy(ss, NameOfSecret)
  }

  lemma AppendUnique(a: seq<Secret>, b: seq<Secret>)
    requires UniqueSecrets(a) && UniqueSecrets(b)
    requires forall s, t :: s in a && t in b ==> s.name != t.name
    ensures UniqueSecrets(a + b)
  {
    var c := a + b;
    forall i, j | 0 <= i < j < |c| ensures NameOfSecret(c[i]) != NameOfSecret(c[j]) {
      if i < |a| <= j {
        assert c[i] in a && c[j] in b;
      } else if j < |a| {
        assert NameOfSecret(a[i]) != NameOfSecret(a[j]);
      } else {
        assert NameOfSecret(b[i - |a|]) != NameOfSecret(b[j - |a|]);
      }
    }
  }

  lemma {:induction false} NoCaBefore(owner: string, chains: seq<ChainView>, n: nat, s: Secret)
    requires n <= |chains| && !CaSeen(chains, n) && s in SecretsUpTo(owner, chains, n)
    ensures s.name != Names.ClientCa(owner)
  {
    SecretsComeFromChains(owner, chains, n, s);
    var k :| 0 <= k < n && chains[k].tls.Some? && s.name == Names.Secret(owner, Ordinal(chains, k));
    Names.SecretIsNotClientCa(owner, Ordinal(chains, k), owner);
  }

  lemma CertIsNew(owner: string, chains: seq<ChainView>, n: nat, s: Secret)
    requires Names.Simple(owner) && n < |chains| && chains[n].tls.Some? && s in SecretsUpTo(owner, chains, n)
    ensures s.name != Names.Secret(owner, Ordinal(chains, n))
  {
    SecretsComeFromChains(owner, chains, n, s);
    if s.name == Names.ClientCa(owner) {
      Names.SecretIsNotClientCa(owner, Ordinal(chains, n), owner);
    } else {
      var k :| 0 <= k < n && chains[k].tls.Some? && s.name == Names.Secret(owner, Ordinal(chains, k));
      OrdinalGrows(chains, k, n);
      if s.name == Names.Secret(owner, Ordinal(chains, n)) {
        Names.SecretInjective(owner, Ordinal(chains, k), owner, Ordinal(chains, n));
      }
    }
  }

  lemma {:induction false} ListenerSecretsUnique(owner: string, chains: seq<ChainView>, n: nat)
    requires Names.Simple(owner) && n <= |chains|
    ensures UniqueSecrets(SecretsUpTo(owner, chains, n))
  {
    if n > 0 {
      ListenerSecretsUnique(owner, chains, n - 1);
      var a, c, d := SecretsUpTo(owner, chains, n - 1), CertPart(owner, Ordinal(chains, n - 1), chains[n - 1]),
          CaPart(owner, chains, n - 1);
      forall s, t | s in a && t in c ensures s.name != t.name {
        CertIsNew(owner, chains, n - 1, s);
      }
      AppendUnique(a, c);
      forall s, t | s in a + c && t in d ensures s.name != t.name {
        if s in a {
          NoCaBefore(owner, chains, n - 1, s);
        } else {
          Names.SecretIsNotClientCa(owner, Ordinal(chains, n - 1), owner);
        }
      }
      AppendUnique(a + c, d);
    }
  }
}
