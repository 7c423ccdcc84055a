/** The L4 part of stage F2: TCP and UDP listeners have one forward route, and on a TLS
    passthrough listener every normalised SNI belongs to one route. */
module LinkL4 {
  import opened Text
  import opened Config
  import opened Link
  import opened Sorting

  function Norm(host: string): string {
    ToLower(TrimSpace(host))
  }

  function Norms(hosts: seq<string>): seq<string> {
    seq(|hosts|, i requires 0 <= i < |hosts| => Norm(hosts[i]))
  }

  function Copies(r: Route, names: seq<string>, listener: string): seq<Route> {
    if names == [] then []
    else Copies(r, names[..|names| - 1], listener) + (if names[|names| - 1] == listener then [r] else [])
  }

  /** The forward attachments to a listener, one entry per mention. */
  function AttachedTo(rs: seq<Route>, listener: string): (out: seq<Route>)
    ensures forall r :: r in out ==> r.IsForward()
  {
    if rs == [] then []
    else
      var r := rs[|rs| - 1];
      var rest := AttachedTo(rs[..|rs| - 1], listener);
      if r.IsForward() then
        CopiesAreR(r, r.listeners, listener);
        rest + Copies(r, r.listeners, listener)
      else rest
  }

  lemma {:induction false} CopiesAreR(r: Route, names: seq<string>, listener: string)
    ensures forall q :: q in Copies(r, names, listener) ==> q == r
    ensures r in Copies(r, names, listener) <==> listener in names
  {
    if names != [] {
      var rest, last := names[..|names| - 1], names[|names| - 1];
      var copies, more := Copies(r, rest, listener), if last == listener then [r] else [];
      CopiesAreR(r, rest, listener);
      assert Copies(r, names, listener) == copies + more;
      assert names == rest + [last];
      CopiesTogether(r, copies, more);
      assert listener in names <==> listener in rest || listener == last;
    }
  }

  lemma CopiesTogether(r: Route, a: seq<Route>, b: seq<Route>)
    ensures forall q :: q in a + b <==> q in a || q in b
  {
  }

  lemma {:induction false} AttachedIff(rs: seq<Route>, listener: string, r: Route)
    ensures r in AttachedTo(rs, listener) <==> r in rs && r.IsForward() && AttachesTo(r, listener)
  {
    if rs != [] {
      var last := rs[|rs| - 1];
      AttachedIff(rs[..|rs| - 1], listener, r);
      CopiesAreR(last, last.listeners, listener);
      assert rs == rs[..|rs| - 1] + [last];
    }
  }

  function SniHosts(r: Route): seq<string> {
    if r.forward.Some? then r.forward.value.sniHosts else []
  }

  function AllNorms(rs: seq<Route>): seq<string> {
    if rs == [] then [] else AllNorms(rs[..|rs| - 1]) + Norms(SniHosts(rs[|rs| - 1]))
  }

  ghost predicate SniUnambiguous(rs: seq<Route>) {
    && (forall r :: r in rs ==> SniHosts(r) != [])
    && Distinct(AllNorms(rs)) && "" !in AllNorms(rs)
  }

  ghost predicate L4ListenerOk(l: Listener, rs: seq<Route>) {
    match l.protocol
    case TCP => |rs| == 1
    case UDP => |rs| == 1
    case TLS => rs != [] && SniUnambiguous(rs)
    case _ => true
  }

  ghost predicate L4ConstraintsOk(cs: ConfigSet) {
    && (forall l :: l in cs.listeners && !l.protocol.IsHttp() ==> !l.hasHttp && l.policies == [])
    && (forall r :: r in cs.routes && r.IsForward() ==> r.hostnames == [] && r.policies == [])
    && (forall l :: l in cs.listeners ==> L4ListenerOk(l, AttachedTo(cs.routes, l.name)))
  }

  function Get(attached: map<string, seq<Route>>, name: string): seq<Route> {
    if name in attached then attached[name] else []
  }

  ghost predicate IsL4(lk: Linked, name: string) {
    name in lk.listeners && !lk.listeners[name].protocol.IsHttp()
  }

  lemma CopiesStep(r: Route, names: seq<string>, i: nat, n: string)
    requires i < |names|
    ensures Copies(r, names[..i + 1], n) == Copies(r, names[..i], n) + (if names[i] == n then [r] else [])
  {
    assert names[..i + 1][..i] == names[..i];
  }

  /** The attachment map after the first i listener names of a route were seen. */
  ghost predicate AttachedSoFar(m: map<string, seq<Route>>, before: map<string, seq<Route>>, r: Route, lk: Linked,
      i: nat)
    requires i <= |r.listeners|
  {
    forall n :: IsL4(lk, n) ==> Get(m, n) == Get(before, n) + Copies(r, r.listeners[..i], n)
  }

  lemma AttachStep(m: map<string, seq<Route>>, before: map<string, seq<Route>>, r: Route, lk: Linked, i: nat)
    requires i < |r.listeners| && AttachedSoFar(m, before, r, lk, i)
    ensures var name := r.listeners[i];
            AttachedSoFar(if IsL4(lk, name) then m[name := Get(m, name) + [r]] else m, before, r, lk, i + 1)
  {
    hide Copies;
    var name := r.listeners[i];
    var now := if IsL4(lk, name) then m[name := Get(m, name) + [r]] else m;
    forall n | IsL4(lk, n) ensures Get(now, n) == Get(before, n) + Copies(r, r.listeners[..i + 1], n) {
      CopiesStep(r, r.listeners, i, n);
      assert Get(now, n) == Get(m, n) + if n == name then [r] else [];
    }
  }

  lemma NothingAttached(before: map<string, seq<Route>>, r: Route, lk: Linked)
    ensures AttachedSoFar(before, before, r, lk, 0)
  {
  }

  method Attach(r: Route, lk: Linked, before: map<string, seq<Route>>) returns (m: map<string, seq<Route>>)
    ensures forall n :: IsL4(lk, n) ==> Get(m, n) == Get(before, n) + Copies(r, r.listeners, n)
  {
    hide AttachedSoFar;
    m := before;
    NothingAttached(before, r, lk);
    for i := 0 to |r.listeners|
      invariant AttachedSoFar(m, before, r, lk, i)
    {
      var name := r.listeners[i];
      AttachStep(m, before, r, lk, i);
      if name in lk.listeners && !lk.listeners[name].protocol.IsHttp() {
        m := m[name := Get(m, name) + [r]];
      }
    }
    AllAttached(m, before, r, lk);
  }

  lemma AllAttached(m: map<string, seq<Route>>, before: map<string, seq<Route>>, r: Route, lk: Linked)
    requires AttachedSoFar(m, before, r, lk, |r.listeners|)
    ensures forall n :: IsL4(lk, n) ==> Get(m, n) == Get(before, n) + Copies(r, r.listeners, n)
  {
    assert r.listeners[..|r.listeners|] == r.listeners;
  }

  method CheckForwardRoutes(cs: ConfigSet, lk: Linked) returns (attached: map<string, seq<Route>>,
      errs: seq<CompileError>)
    ensures AllAt(errs, LinkStage)
    ensures errs == [] <==> forall r :: r in cs.routes && r.IsForward() ==> r.hostnames == [] && r.policies == []
    ensures forall n :: IsL4(lk, n) ==> Get(attached, n) == AttachedTo(cs.routes, n)
  {
    errs, attached := [], map[];
    for k := 0 to |cs.routes|
      invariant AllAt(errs, LinkStage)
      invariant errs == []
              <==> forall r :: r in cs.routes[..k] && r.IsForward() ==> r.hostnames == [] && r.policies == []
      invariant forall n :: IsL4(lk, n) ==> Get(attached, n) == AttachedTo(cs.routes[..k], n)
    {
      var r := cs.routes[k];
      assert cs.routes[..k + 1] == cs.routes[..k] + [r];
      assert cs.routes[..k + 1][..k] == cs.routes[..k];
      if r.IsForward() {
        if r.hostnames != [] {
          errs := errs + [LinkError(r.name, "spec.hostnames")];
        }
        attached := Attach(r, lk, attached);
        for i := 0 to |r.policies|
          invariant AllAt(errs, LinkStage)
          invariant errs == []
                  <==> ((forall q :: q in cs.routes[..k] && q.IsForward() ==> q.hostnames == [] && q.policies == [])
                                     && r.hostnames == [] && i == 0)
        {
          errs := errs + [LinkError(r.name, "spec.policies")];
        }
      }
    }
    assert cs.routes[..|cs.routes|] == cs.routes;
  }

  method CheckL4Listeners(cs: ConfigSet) returns (errs: seq<CompileError>)
    ensures AllAt(errs, LinkStage)
    ensures errs == [] <==> forall l :: l in cs.listeners && !l.protocol.IsHttp() ==> !l.hasHttp && l.policies == []
  {
    errs := [];
    for k := 0 to |cs.listeners|
      invariant AllAt(errs, LinkStage)
      invariant errs == []
              <==> forall l :: l in cs.listeners[..k] && !l.protocol.IsHttp() ==> !l.hasHttp && l.policies == []
    {
      var l := cs.listeners[k];
      assert cs.listeners[..k + 1] == cs.listeners[..k] + [l];
      if !l.protocol.IsHttp() {
        if l.hasHttp {
          errs := errs + [LinkError(l.name, "spec.http")];
        }
        ghost var before := errs;
        for i := 0 to |l.policies|
          invariant AllAt(errs, LinkStage)
          invariant errs == [] <==> before == [] && i == 0
        {
          errs := errs + [LinkError(l.name, "spec.policies")];
        }
      }
    }
    assert cs.listeners[..|cs.listeners|] == cs.listeners;
  }

  /** One TLS route's hosts against the SNI claimed so far. */
  method ClaimSni(r: Route, claimed: set<string>) returns (all: set<string>, errs: seq<CompileError>)
    ensures AllAt(errs, LinkStage)
    ensures errs == [] <==> (
              && Distinct(Norms(SniHosts(r))) && "" !in Norms(SniHosts(r))
              && forall n :: n in Norms(SniHosts(r)) ==> n !in claimed)
    ensures errs == [] ==> all == claimed + set n | n in Norms(SniHosts(r))
  {
    var hosts := SniHosts(r);
    var ns := Norms(hosts);
    all, errs := claimed, [];
    for i := 0 to |hosts|
      invariant AllAt(errs, LinkStage)
      invariant errs == [] <==> Distinct(ns[..i]) && "" !in ns[..i] && forall n :: n in ns[..i] ==> n !in claimed
      invariant errs == [] ==> all == claimed + set n | n in ns[..i]
    {
      assert ns[..i + 1] == ns[..i] + [ns[i]];
      var norm := Norm(hosts[i]);
      assert norm == ns[i];
      if norm == "" || norm in all {
        errs := errs + [LinkError(r.name, "spec.forward.sniHosts")];
      } else {
        all := all + {norm};
      }
    }
    assert ns[..|hosts|] == ns;
  }

  lemma DistinctAppend(a: seq<string>, b: seq<string>)
    ensures Distinct(a + b) <==> Distinct(a) && Distinct(b) && forall x :: x in a ==> x !in b
  {
    var c := a + b;
    if Distinct(c) {
      forall i, j | 0 <= i < |a| && 0 <= j < |b| ensures a[i] != b[j] { assert c[i] == a[i] && c[|a| + j] == b[j]; }
      forall i, j | 0 <= i < j < |a| ensures a[i] != a[j] { assert c[i] != c[j]; }
      forall i, j | 0 <= i < j < |b| ensures b[i] != b[j] { assert c[|a| + i] != c[|a| + j]; }
    } else if Distinct(a) && Distinct(b) {
      var i, j :| 0 <= i < j < |c| && c[i] == c[j];
      assert c[j] == b[j - |a|] && c[j] in b;
      assert i < |a| && c[i] == a[i] && c[i] in a;
    }
  }

  lemma UnambiguousStep(rs: seq<Route>, r: Route)
    ensures AllNorms(rs + [r]) == AllNorms(rs) + Norms(SniHosts(r))
    ensures SniUnambiguous(rs + [r]) <==> (
              && SniUnambiguous(rs) && SniHosts(r) != []
              && Distinct(Norms(SniHosts(r))) && "" !in Norms(SniHosts(r))
              && forall n :: n in Norms(SniHosts(r)) ==> n !in AllNorms(rs))
  {
    assert (rs + [r])[..|rs|] == rs;
    DistinctAppend(AllNorms(rs), Norms(SniHosts(r)));
  }

  method CheckPassthrough(l: Listener, rs: seq<Route>) returns (errs: seq<CompileError>)
    ensures AllAt(errs, LinkStage)
    ensures errs == [] <==> SniUnambiguous(rs)
  {
    errs := [];
    var claimed: set<string> := {};
    for k := 0 to |rs|
      invariant AllAt(errs, LinkStage)
      invariant errs == [] <==> SniUnambiguous(rs[..k])
      invariant errs == [] ==> claimed == set n | n in AllNorms(rs[..k])
    {
      assert rs[..k + 1] == rs[..k] + [rs[k]];
      UnambiguousStep(rs[..k], rs[k]);
      if |SniHosts(rs[k])| == 0 {
        errs := errs + [LinkError(rs[k].name, "spec.forward.sniHosts")];
      } else {
        var claimed', herrs := ClaimSni(rs[k], claimed);
        claimed, errs := claimed', errs + herrs;
      }
    }
    assert rs[..|rs|] == rs;
  }

  method CheckL4Listener(l: Listener, rs: seq<Route>) returns (errs: seq<CompileError>)
    requires !l.protocol.IsHttp()
    ensures AllAt(errs, LinkStage)
    ensures errs == [] <==> L4ListenerOk(l, rs)
  {
    errs := [];
    if l.protocol.TCP? || l.protocol.UDP? {
      if |rs| == 0 {
        errs := [LinkError(l.name, "spec.protocol")];
      } else {
        for i := 1 to |rs|
          invariant AllAt(errs, LinkStage)
          invariant errs == [] <==> i == 1
        {
          errs := errs + [LinkError(rs[i].name, "spec.listeners")];
        }
      }
    } else if |rs| == 0 {
      errs := [LinkError(l.name, "spec.protocol")];
    } else {
      errs := CheckPassthrough(l, rs);
    }
  }

  method CheckAttached(ls: seq<Listener>, rs: seq<Route>, lk: Linked, attached: map<string, seq<Route>>)
    returns (errs: seq<CompileError>)
    requires forall l :: l in ls && !l.protocol.IsHttp() ==> IsL4(lk, l.name)
    requires forall n :: IsL4(lk, n) ==> Get(attached, n) == AttachedTo(rs, n)
    ensures AllAt(errs, LinkStage)
    ensures errs == [] <==> forall l :: l in ls ==> L4ListenerOk(l, AttachedTo(rs, l.name))
  {
    errs := [];
    for k := 0 to |ls|
      invariant AllAt(errs, LinkStage)
      invariant errs == [] <==> forall l :: l in ls[..k] ==> L4ListenerOk(l, AttachedTo(rs, l.name))
    {
      var l := ls[k];
      assert ls[..k + 1] == ls[..k] + [l];
      if !l.protocol.IsHttp() {
        var lerrs := CheckL4Listener(l, Get(attached, l.name));
        errs := errs + lerrs;
      }
    }
    assert ls[..|ls|] == ls;
  }

  method CheckL4RouteConstraints(cs: ConfigSet, lk: Linked) returns (errs: seq<CompileError>)
    requires Indexes(lk, cs)
    ensures AllAt(errs, LinkStage)
    ensures errs == [] <==> L4ConstraintsOk(cs)
  {
    hide Sort, Le, L4ListenerOk, AttachedTo, Get, Indexes, IsL4;
    var errs1 := CheckL4Listeners(cs);
    var attached, errs2 := CheckForwardRoutes(cs, lk);
    var byName := (x: Listener, y: Listener) => Le(x.name, y.name);
    SortPermutes(cs.listeners, byName);
    var ls := Sort(cs.listeners, byName);
    AllIndexed(cs, lk);
    var errs3 := CheckAttached(ls, cs.routes, lk, attached);
    errs := errs1 + errs2 + errs3;
    assert errs == [] <==> errs1 == [] && errs2 == [] && errs3 == [];
  }

  lemma AllIndexed(cs: ConfigSet, lk: Linked)
    requires Indexes(lk, cs)
    ensures forall l :: l in cs.listeners && !l.protocol.IsHttp() ==> IsL4(lk, l.name)
  {
  }

  // What the checks give the build stage

  /** The normalised hosts of two routes attached to an accepted TLS listener are disjoint. */
  lemma {:induction false} SniBelongsToOne(rs: seq<Route>, r1: Route, r2: Route, n: string)
    requires SniUnambiguous(rs) && r1 in rs && r2 in rs
    requires n in Norms(SniHosts(r1)) && n in Norms(SniHosts(r2))
    ensures r1 == r2
    ensures n != ""
  {
    var last, rest := rs[|rs| - 1], rs[..|rs| - 1];
    assert rs == rest + [last];
    UnambiguousStep(rest, last);
    if r1 in rest && r2 in rest {
      SniBelongsToOne(rest, r1, r2, n);
    } else if r1 in rest {
      NormsAreListed(rest, r1, n);
    } else if r2 in rest {
      NormsAreListed(rest, r2, n);
    }
  }

  lemma {:induction false} NormsAreListed(rs: seq<Route>, r: Route, n: string)
    requires r in rs && n in Norms(SniHosts(r))
    ensures n in AllNorms(rs)
  {
    var last, rest := rs[|rs| - 1], rs[..|rs| - 1];
    assert rs == rest + [last];
    if r in rest {
      NormsAreListed(rest, r, n);
    }
  }
}
