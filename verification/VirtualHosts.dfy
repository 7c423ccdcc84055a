/** Are the domains of a listener's virtual hosts unambiguous? Exactly when no route repeats itself. */
module VirtualHosts {
  import opened Text
  import opened Config
  import opened Link
  import opened LinkHostnames
  import opened BuildValues
  import Envoy
  import Policies
  import Sorting

  /** The domains of all virtual hosts, one after the other. */
  function Domains(vhosts: seq<Envoy.VirtualHost>): seq<string> {
    if vhosts == [] then [] else Domains(vhosts[..|vhosts| - 1]) + vhosts[|vhosts| - 1].domains
  }

  /** No two domains are equal up to case. */
  ghost predicate Unambiguous(domains: seq<string>) {
    Sorting.DistinctBy(domains, ToLower)
  }

  lemma {:induction false} InsertDistinctBack<T>(x: T, s: seq<T>, le: (T, T) -> bool, key: T -> string)
    requires Sorting.DistinctBy(Sorting.Insert(x, s, le), key)
    ensures Sorting.DistinctBy(s, key) && forall y :: y in s ==> key(y) != key(x)
  {
    var all := Sorting.Insert(x, s, le);
    if s != [] && le(x, s[0]) {
      assert all == [x] + s;
      forall i, j | 0 <= i < j < |s| ensures key(s[i]) != key(s[j]) {
        assert all[i + 1] == s[i] && all[j + 1] == s[j];
      }
      forall i | 0 <= i < |s| ensures key(s[i]) != key(x) {
        assert all[0] == x && all[i + 1] == s[i];
      }
    } else if s != [] {
      var rest := Sorting.Insert(x, s[1..], le);
      assert all == [s[0]] + rest;
      forall i, j | 0 <= i < j < |rest| ensures key(rest[i]) != key(rest[j]) {
        assert all[i + 1] == rest[i] && all[j + 1] == rest[j];
      }
      InsertDistinctBack(x, s[1..], le, key);
      Sorting.InsertPermutes(x, s[1..], le);
      forall y | y in s[1..] || y == x ensures key(y) != key(s[0]) {
        assert y in multiset(rest);
        var j :| 0 <= j < |rest| && rest[j] == y;
        assert all[j + 1] == y && all[0] == s[0];
      }
      assert s == [s[0]] + s[1..];
    }
  }

  /** Sorting neither creates nor removes repetitions. */
  lemma {:induction false} SortDistinctBack<T>(s: seq<T>, le: (T, T) -> bool, key: T -> string)
    requires Sorting.DistinctBy(Sorting.Sort(s, le), key)
    ensures Sorting.DistinctBy(s, key)
  {
    if s != [] {
      InsertDistinctBack(s[0], Sorting.Sort(s[1..], le), le, key);
      SortDistinctBack(s[1..], le, key);
      Sorting.SortPermutes(s[1..], le);
      forall j | 1 <= j < |s| ensures key(s[0]) != key(s[j]) {
        assert s[j] == s[1..][j - 1] && s[j] in s[1..];
      }
      forall i, j | 1 <= i < j < |s| ensures key(s[i]) != key(s[j]) {
        assert s[i] == s[1..][i - 1] && s[j] == s[1..][j - 1];
      }
    }
  }

  lemma DomainsOfRoute(r: Route)
    ensures Unambiguous(RouteDomains(r)) <==> Unambiguous(HostnamesOf(r))
    ensures forall d :: d in RouteDomains(r) <==> d in HostnamesOf(r)
  {
    hide Sorting.Sort;
    if r.hostnames != [] {
      Sorting.SortPermutes(r.hostnames, DomainLe);
      if Unambiguous(r.hostnames) {
        Sorting.SortKeepsDistinctBy(r.hostnames, DomainLe, ToLower);
      } else if Unambiguous(RouteDomains(r)) {
        SortDistinctBack(r.hostnames, DomainLe, ToLower);
      }
    }
  }

  lemma AppendUnambiguous(a: seq<string>, b: seq<string>)
    requires forall x, y :: x in a && y in b ==> ToLower(x) != ToLower(y)
    ensures Unambiguous(a + b) <==> Unambiguous(a) && Unambiguous(b)
  {
    hide ToLower;
    var c := a + b;
    if Unambiguous(c) {
      forall i, j | 0 <= i < j < |a| ensures ToLower(a[i]) != ToLower(a[j]) {
        assert c[i] == a[i] && c[j] == a[j];
      }
      forall i, j | 0 <= i < j < |b| ensures ToLower(b[i]) != ToLower(b[j]) {
        assert c[|a| + i] == b[i] && c[|a| + j] == b[j];
      }
    } else if Unambiguous(a) && Unambiguous(b) {
      forall i, j | 0 <= i < j < |c| ensures ToLower(c[i]) != ToLower(c[j]) {
        if i < |a| <= j {
          assert c[i] in a && c[j] in b;
        } else if j < |a| {
          assert c[i] == a[i] && c[j] == a[j];
        } else {
          assert c[i] == b[i - |a|] && c[j] == b[j - |a|];
        }
      }
    }
  }

  /** Virtual hosts of the routes rs, by their domains. */
  ghost predicate Hosts(vhosts: seq<Envoy.VirtualHost>, rs: seq<Route>) {
    |vhosts| == |rs| && forall k :: 0 <= k < |rs| ==> vhosts[k].domains == RouteDomains(rs[k])
  }

  /** No two routes of the list answer for one folded hostname. */
  ghost predicate Apart(rs: seq<Route>) {
    forall i, j, x, y :: 0 <= i < j < |rs| && x in HostnamesOf(rs[i]) && y in HostnamesOf(rs[j]) ==>
      ToLower(x) != ToLower(y)
  }

  lemma {:induction false} DomainFromRoute(vhosts: seq<Envoy.VirtualHost>, rs: seq<Route>, d: string) returns (k: nat)
    requires Hosts(vhosts, rs) && d in Domains(vhosts)
    ensures k < |rs| && d in HostnamesOf(rs[k])
  {
    var n := |vhosts| - 1;
    if d in vhosts[n].domains {
      k := n;
      DomainsOfRoute(rs[n]);
    } else {
      k := DomainFromRoute(vhosts[..n], rs[..n], d);
    }
  }

  lemma {:induction false} UnambiguousPerRoute(vhosts: seq<Envoy.VirtualHost>, rs: seq<Route>)
    requires Hosts(vhosts, rs) && Apart(rs)
    ensures Unambiguous(Domains(vhosts)) <==> forall k :: 0 <= k < |rs| ==> Unambiguous(HostnamesOf(rs[k]))
  {
    hide Unambiguous, RouteDomains, HostnamesOf, ToLower;
    if rs == [] {
      assert Unambiguous([]) by { NothingIsUnambiguous(); }
    } else {
      var n := |rs| - 1;
      UnambiguousPerRoute(vhosts[..n], rs[..n]);
      DomainsOfRoute(rs[n]);
      forall x, y | x in Domains(vhosts[..n]) && y in vhosts[n].domains ensures ToLower(x) != ToLower(y) {
        var k := DomainFromRoute(vhosts[..n], rs[..n], x);
        assert rs[..n][k] == rs[k];
      }
      AppendUnambiguous(Domains(vhosts[..n]), vhosts[n].domains);
      assert forall k :: 0 <= k < n ==> rs[..n][k] == rs[k];
    }
  }

  lemma NothingIsUnambiguous()
    ensures Unambiguous([])
  {
  }

  lemma {:induction false} HttpRoutesDistinct(rs: seq<Route>, listener: string)
    requires Sorting.Distinct(rs)
    ensures Sorting.Distinct(HttpRoutes(rs, listener))
  {
    if rs != [] {
      var r, rest := rs[|rs| - 1], rs[..|rs| - 1];
      assert Sorting.Distinct(rest);
      HttpRoutesDistinct(rest, listener);
      assert r !in rest;
    }
  }

  lemma RoutesDistinct(cs: ConfigSet, l: Listener)
    requires WellFormed(cs)
    ensures Sorting.Distinct(RoutesOf(cs, l))
    ensures forall r :: r in RoutesOf(cs, l) ==> r in cs.routes && r.rules != [] && l.name in r.listeners
  {
    hide Sorting.Sort;
    Sorting.SortPermutes(cs.routes, RouteLe);
    assert Sorting.Distinct(cs.routes);
    Sorting.SortKeepsDistinct(cs.routes, RouteLe);
    HttpRoutesDistinct(SortedRoutes(cs), l.name);
  }

  lemma RoutesApart(lk: Linked, cs: ConfigSet, l: Listener)
    requires WellFormed(cs) && NoHostnameConflict(lk, cs) && l.name in lk.listeners
    ensures Apart(RoutesOf(cs, l))
  {
    hide RoutesOf, NoHostnameConflict, WellFormed, ToLower;
    var rs := RoutesOf(cs, l);
    RoutesDistinct(cs, l);
    forall i, j, x, y | 0 <= i < j < |rs| && x in HostnamesOf(rs[i]) && y in HostnamesOf(rs[j])
      ensures ToLower(x) != ToLower(y)
    {
      assert rs[i] in rs && rs[j] in rs;
      if ToLower(x) == ToLower(y) {
        DomainNamesOneRoute(lk, cs, rs[i], rs[j], l.name, x, y);
      }
    }
  }

  lemma VhostsAre(env: Policies.Env, lk: Linked, cs: ConfigSet, l: Listener)
    ensures Hosts(RouteConfigOf(env, lk, cs, l).vhosts, RoutesOf(cs, l))
  {
    hide RoutesOf, RouteDomains, WantedOn, RawRoute, Finalized;
  }

  /** After the link checks, the domains of a listener's virtual hosts are pairwise distinct up to case exactly
      when no route attached to it lists a hostname twice. */
  lemma DomainsUnambiguousIff(env: Policies.Env, lk: Linked, cs: ConfigSet, l: Listener)
    requires WellFormed(cs) && Indexes(lk, cs) && NoHostnameConflict(lk, cs) && l in cs.listeners
    ensures Unambiguous(Domains(RouteConfigOf(env, lk, cs, l).vhosts))
            <==> forall r :: r in RoutesOf(cs, l) ==> Unambiguous(HostnamesOf(r))
  {
    hide Unambiguous, Domains, RouteConfigOf, RoutesOf, HostnamesOf, NoHostnameConflict, WellFormed;
    RoutesApart(lk, cs, l);
    VhostsAre(env, lk, cs, l);
    UnambiguousPerRoute(RouteConfigOf(env, lk, cs, l).vhosts, RoutesOf(cs, l));
  }

  lemma RouteIsListed(cs: ConfigSet, l: Listener, r: Route)
    requires r in cs.routes && r.rules != [] && l.name in r.listeners
    ensures r in RoutesOf(cs, l)
  {
    hide Sorting.Sort;
    Sorting.SortPermutes(cs.routes, RouteLe);
  }

  /** A configuration that passes the link check with one hostname under two spellings in one route. */
  lemma OneRouteMayRepeatItself(env: Policies.Env) returns (lk: Linked, cs: ConfigSet, l: Listener)
    ensures WellFormed(cs) && Indexes(lk, cs) && NoHostnameConflict(lk, cs) && cs.listeners == [l] && l.protocol.HTTP?
    ensures !Unambiguous(Domains(RouteConfigOf(env, lk, cs, l).vhosts))
  {
    hide RouteConfigOf, Domains, RoutesOf;
    l := Listener("web", "0.0.0.0", 80, HTTP, None, false, []);
    var r := Route("r", ["web"], ["a.example", "A.example"], [], [Rule("/", DirectResponse(200), [])], None);
    cs := ConfigSet([], [l], [r], [], []);
    lk := Linked(map["web" := l], map[], map[]);
    assert ToLower(r.hostnames[0]) == ToLower(r.hostnames[1]);
    assert !Unambiguous(HostnamesOf(r));
    assert r in RoutesOf(cs, l) by { RouteIsListed(cs, l, r); }
    DomainsUnambiguousIff(env, lk, cs, l);
  }
}
