/** Resource names. A '/' separates the parts because user names cannot contain one. */
module Names {
  import opened Text

  ghost predicate Simple(name: string) {
    '/' !in name
  }

  function Listener(name: string): string { "lis/" + name }
  function RouteConfig(listener: string): string { "rc/" + listener }
  function VirtualHost(route: string): string { "vh/" + route }
  function Cluster(upstream: string): string { "us/" + upstream }
  function Secret(listener: string, n: nat): string { "crt/" + listener + "/" + Itoa(n) }
  function ClientCa(listener: string): string { "ca/" + listener }
  function ExtAuthCluster(digest: string): string { "extauth/" + digest }

  function TrimPrefix(s: string, prefix: string): string {
    if prefix <= s then s[|prefix|..] else s
  }

  /** The test that assigns a compiled secret to its listener. */
  predicate BelongsTo(secret: string, listener: string) {
    "crt/" + listener + "/" <= secret || secret == ClientCa(listener)
  }

  lemma ListenerNameTrims(name: string)
    ensures TrimPrefix(Listener(name), "lis/") == name
  {
    assert Listener(name)[..4] == "lis/";
  }

  lemma PrefixesInjective(a: string, b: string)
    ensures Listener(a) == Listener(b) ==> a == b
    ensures RouteConfig(a) == RouteConfig(b) ==> a == b
    ensures Cluster(a) == Cluster(b) ==> a == b
    ensures ClientCa(a) == ClientCa(b) ==> a == b
    ensures Cluster(a) != ExtAuthCluster(b)
  {
    assert Listener(a)[4..] == a && Listener(b)[4..] == b;
    assert RouteConfig(a)[3..] == a && RouteConfig(b)[3..] == b;
    assert Cluster(a)[3..] == a && Cluster(b)[3..] == b;
    assert ClientCa(a)[3..] == a && ClientCa(b)[3..] == b;
    assert Cluster(a)[0] == 'u' && ExtAuthCluster(b)[0] == 'e';
  }

  lemma FirstPart(a: string, b: string, c: string)
    requires Simple(a) && Simple(b)
    requires a + "/" <= b + "/" + c
    ensures a == b
  {
    var s, t := a + "/", b + "/" + c;
    assert s[|a|] == '/' && t[|b|] == '/';
    assert |a| == |b|;
    assert a == s[..|a|] && b == t[..|b|];
  }

  /** A certificate secret belongs to exactly the listener it is named after. */
  lemma SecretBelongs(owner: string, listener: string, n: nat)
    requires Simple(owner) && Simple(listener)
    ensures BelongsTo(Secret(owner, n), listener) <==> owner == listener
  {
    var s := Secret(owner, n);
    assert s[0] == 'c' && s[1] == 'r' && ClientCa(listener)[1] == 'a';
    var p := "crt/" + listener + "/";
    assert s[..4] == "crt/" && s[4..] == owner + "/" + Itoa(n);
    assert p[4..] == listener + "/";
    if p <= s {
      assert listener + "/" <= s[4..] by { assert s[4..][..|listener| + 1] == s[4..|p|] == p[4..]; }
      FirstPart(listener, owner, Itoa(n));
    }
    if owner == listener {
      assert p <= s by { assert s == p + Itoa(n); }
    }
  }

  lemma ClientCaBelongs(owner: string, listener: string)
    ensures BelongsTo(ClientCa(owner), listener) <==> owner == listener
  {
    PrefixesInjective(owner, listener);
    assert ClientCa(owner)[1] == 'a' && ("crt/" + listener + "/")[1] == 'r';
  }

  lemma SecretInjective(a: string, m: nat, b: string, n: nat)
    requires Simple(a) && Simple(b)
    requires Secret(a, m) == Secret(b, n)
    ensures a == b && m == n
  {
    SecretBelongs(a, a, m);
    SecretBelongs(b, a, n);
    var p := "crt/" + a + "/";
    assert Secret(a, m)[|p|..] == Itoa(m) && Secret(b, n)[|p|..] == Itoa(n);
    ItoaInjective(m, n);
  }

  lemma SecretIsNotClientCa(a: string, m: nat, b: string)
    ensures Secret(a, m) != ClientCa(b)
  {
    assert Secret(a, m)[1] == 'r' && ClientCa(b)[1] == 'a';
  }
}
