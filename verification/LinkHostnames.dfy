/** The hostname part of stage F2: on one listener a hostname selects one route. */
module LinkHostnames {
  import opened Text
  import opened Config
  import opened Link

  function HostnamesOf(r: Route): seq<string> {
    if r.hostnames == [] then ["*"] else r.hostnames
  }

  type HostKey = (string, string)

  /** Route r answers for the folded hostname key.1 on listener key.0. */
  ghost predicate Claims(r: Route, key: HostKey) {
    && r.rules != [] && key.0 in r.listeners
    && exists h :: h in HostnamesOf(r) && ToLower(h) == key.1
  }

  /** No listener known to lk has a hostname both routes answer for. */
  ghost predicate Disjoint(lk: Linked, r1: Route, r2: Route) {
    forall key: HostKey :: key.0 in lk.listeners && Claims(r1, key) ==> !Claims(r2, key)
  }

  ghost predicate PairwiseDisjoint(lk: Linked, rs: seq<Route>) {
    forall i, j :: 0 <= i < j < |rs| ==> Disjoint(lk, rs[i], rs[j])
  }

  ghost predicate NoHostnameConflict(lk: Linked, cs: ConfigSet) {
    PairwiseDisjoint(lk, cs.routes)
  }

  lemma PairwiseStep(lk: Linked, rs: seq<Route>, r: Route)
    ensures PairwiseDisjoint(lk, rs + [r])
            <==> PairwiseDisjoint(lk, rs) && (r.rules != [] ==> forall q :: q in rs ==> Disjoint(lk, q, r))
  {
    var all := rs + [r];
    if r.rules == [] {
      assert forall q :: Disjoint(lk, q, r);
    }
    assert forall i :: 0 <= i < |rs| ==> all[i] == rs[i];
    if PairwiseDisjoint(lk, all) {
      forall q | q in rs ensures Disjoint(lk, q, r) {
        var i :| 0 <= i < |rs| && rs[i] == q;
        assert Disjoint(lk, all[i], all[|rs|]);
      }
      forall i, j | 0 <= i < j < |rs| ensures Disjoint(lk, rs[i], rs[j]) {
        assert Disjoint(lk, all[i], all[j]);
      }
    }
  }

  ghost predicate OwnedOrFree(claimed: map<HostKey, string>, key: HostKey, owner: string) {
    key in claimed ==> claimed[key] == owner
  }

  method ClaimHosts(listener: string, hosts: seq<string>, owner: string, claimed: map<HostKey, string>)
    returns (m: map<HostKey, string>, errs: seq<CompileError>)
    ensures AllAt(errs, LinkStage)
    ensures m.Keys == claimed.Keys + set h | h in hosts :: (listener, ToLower(h))
    ensures forall key :: key in m ==> m[key] == if key in claimed then claimed[key] else owner
    ensures errs == [] <==> forall h :: h in hosts ==> OwnedOrFree(claimed, (listener, ToLower(h)), owner)
  {
    m, errs := claimed, [];
    for i := 0 to |hosts|
      invariant AllAt(errs, LinkStage)
      invariant m.Keys == claimed.Keys + set h | h in hosts[..i] :: (listener, ToLower(h))
      invariant forall key :: key in m ==> m[key] == if key in claimed then claimed[key] else owner
      invariant errs == [] <==> forall h :: h in hosts[..i] ==> OwnedOrFree(claimed, (listener, ToLower(h)), owner)
    {
      assert hosts[..i + 1] == hosts[..i] + [hosts[i]];
      var key := (listener, ToLower(hosts[i]));
      if key in m && m[key] != owner {
        errs := errs + [LinkError(owner, "spec.hostnames")];
      } else {
        m := m[key := owner];
      }
    }
    assert hosts[..|hosts|] == hosts;
  }

  ghost predicate ClaimsOn(r: Route, names: seq<string>, lk: Linked, key: HostKey) {
    && key.0 in names && key.0 in lk.listeners
    && exists h :: h in HostnamesOf(r) && ToLower(h) == key.1
  }

  /** m is the claim table claimed extended with r's claims on the listeners names. */
  ghost predicate Extended(m: map<HostKey, string>, claimed: map<HostKey, string>, r: Route, names: seq<string>,
      lk: Linked) {
    && (forall key :: key in m <==> key in claimed || ClaimsOn(r, names, lk, key))
    && (forall key :: key in m ==> m[key] == if key in claimed then claimed[key] else r.name)
  }

  ghost predicate AllFree(claimed: map<HostKey, string>, r: Route, names: seq<string>, lk: Linked) {
    forall key :: ClaimsOn(r, names, lk, key) ==> OwnedOrFree(claimed, key, r.name)
  }

  lemma ClaimsOnGrows(r: Route, names: seq<string>, name: string, lk: Linked, key: HostKey)
    ensures ClaimsOn(r, names + [name], lk, key) <==> ClaimsOn(r, names, lk, key) || ClaimsOn(r, [name], lk, key)
  {
  }

  lemma AllFreeGrows(claimed: map<HostKey, string>, m: map<HostKey, string>, r: Route, names: seq<string>, name: string,
      lk: Linked)
    requires Extended(m, claimed, r, names, lk)
    ensures AllFree(claimed, r, names + [name], lk) <==> (
              && AllFree(claimed, r, names, lk)
              && (name in lk.listeners ==>
                     forall h :: h in HostnamesOf(r) ==> OwnedOrFree(m, (name, ToLower(h)), r.name)))
  {
    forall key
      ensures ClaimsOn(r, names + [name], lk, key) <==> ClaimsOn(r, names, lk, key) || ClaimsOn(r, [name], lk, key)
    {
      ClaimsOnGrows(r, names, name, lk, key);
    }
    if name in lk.listeners {
      forall h | h in HostnamesOf(r)
        ensures ClaimsOn(r, [name], lk, (name, ToLower(h)))
        ensures OwnedOrFree(m, (name, ToLower(h)), r.name) <==> OwnedOrFree(claimed, (name, ToLower(h)), r.name)
      {
      }
    }
  }

  lemma ExtendedGrows(claimed: map<HostKey, string>, m: map<HostKey, string>, m': map<HostKey, string>, r: Route,
      names: seq<string>, name: string, lk: Linked)
    requires Extended(m, claimed, r, names, lk) && name in lk.listeners
    requires m'.Keys == m.Keys + set h | h in HostnamesOf(r) :: (name, ToLower(h))
    requires forall key :: key in m' ==> m'[key] == if key in m then m[key] else r.name
    ensures Extended(m', claimed, r, names + [name], lk)
  {
    forall key ensures key in m' <==> key in claimed || ClaimsOn(r, names + [name], lk, key) {
      ClaimsOnGrows(r, names, name, lk, key);
    }
  }

  method ClaimRoute(r: Route, lk: Linked, claimed: map<HostKey, string>)
    returns (m: map<HostKey, string>, errs: seq<CompileError>)
    ensures AllAt(errs, LinkStage)
    ensures Extended(m, claimed, r, r.listeners, lk)
    ensures errs == [] <==> AllFree(claimed, r, r.listeners, lk)
  {
    m, errs := claimed, [];
    for i := 0 to |r.listeners|
      invariant AllAt(errs, LinkStage)
      invariant Extended(m, claimed, r, r.listeners[..i], lk)
      invariant errs == [] <==> AllFree(claimed, r, r.listeners[..i], lk)
    {
      var name := r.listeners[i];
      assert r.listeners[..i + 1] == r.listeners[..i] + [name];
      AllFreeGrows(claimed, m, r, r.listeners[..i], name, lk);
      if name in lk.listeners {
        var m', herrs := ClaimHosts(name, HostnamesOf(r), r.name, m);
        ExtendedGrows(claimed, m, m', r, r.listeners[..i], name, lk);
        m, errs := m', errs + herrs;
      }
    }
    assert r.listeners[..|r.listeners|] == r.listeners;
  }

  /** The claim table after the routes rs: every claim is in it, owned by some claimant. */
  ghost predicate Records(claimed: map<HostKey, string>, lk: Linked, rs: seq<Route>) {
    && (forall key :: key in claimed ==> key.0 in lk.listeners && OwnedByOne(claimed[key], key, rs))
    && (forall r, key: HostKey :: r in rs && key.0 in lk.listeners && Claims(r, key) ==> key in claimed)
  }

  ghost predicate OwnedByOne(owner: string, key: HostKey, rs: seq<Route>) {
    exists r :: r in rs && r.name == owner && Claims(r, key)
  }

  lemma FreeIsDisjoint(claimed: map<HostKey, string>, lk: Linked, rs: seq<Route>, r: Route)
    requires Records(claimed, lk, rs)
    requires r.rules != [] && forall q :: q in rs ==> q.name != r.name
    ensures AllFree(claimed, r, r.listeners, lk) <==> forall q :: q in rs ==> Disjoint(lk, q, r)
  {
    if AllFree(claimed, r, r.listeners, lk) {
      forall q, key: HostKey | q in rs && key.0 in lk.listeners && Claims(q, key) ensures !Claims(r, key) {
        assert OwnedByOne(claimed[key], key, rs);
        assert Claims(r, key) ==> ClaimsOn(r, r.listeners, lk, key);
      }
    } else {
      var key :| ClaimsOn(r, r.listeners, lk, key) && !OwnedOrFree(claimed, key, r.name);
      var q :| q in rs && q.name == claimed[key] && Claims(q, key);
      assert Claims(r, key) && !Disjoint(lk, q, r);
    }
  }

  lemma RecordsGrows(before: map<HostKey, string>, after: map<HostKey, string>, lk: Linked, rs: seq<Route>, r: Route)
    requires Records(before, lk, rs) && r.rules != []
    requires Extended(after, before, r, r.listeners, lk)
    ensures Records(after, lk, rs + [r])
  {
    forall key | key in after ensures key.0 in lk.listeners && OwnedByOne(after[key], key, rs + [r]) {
      if key in before {
        assert OwnedByOne(before[key], key, rs);
      } else {
        assert ClaimsOn(r, r.listeners, lk, key);
        assert r in rs + [r] && Claims(r, key);
      }
    }
    forall q, key: HostKey | q in rs + [r] && key.0 in lk.listeners && Claims(q, key) ensures key in after {
      if q in rs {
        assert key in before;
      } else {
        assert ClaimsOn(r, r.listeners, lk, key);
      }
    }
  }

  lemma RecordsSkips(claimed: map<HostKey, string>, lk: Linked, rs: seq<Route>, r: Route)
    requires Records(claimed, lk, rs) && r.rules == []
    ensures Records(claimed, lk, rs + [r])
  {
    forall key | key in claimed ensures OwnedByOne(claimed[key], key, rs + [r]) {
      assert OwnedByOne(claimed[key], key, rs);
    }
  }

  lemma NothingRecorded(lk: Linked)
    ensures Records(map[], lk, []) && PairwiseDisjoint(lk, [])
  {
  }

  lemma EarlierNamesDiffer(cs: ConfigSet, k: nat)
    requires WellFormed(cs) && k < |cs.routes|
    ensures forall q :: q in cs.routes[..k] ==> q.name != cs.routes[k].name
  {
  }

  method CheckHostnameConflicts(cs: ConfigSet, lk: Linked) returns (errs: seq<CompileError>)
    requires WellFormed(cs)
    ensures AllAt(errs, LinkStage)
    ensures errs == [] <==> NoHostnameConflict(lk, cs)
  {
    hide Records, PairwiseDisjoint, WellFormed, Disjoint;
    errs := [];
    var claimed: map<HostKey, string> := map[];
    NothingRecorded(lk);
    assert cs.routes[..0] == [];
    for k := 0 to |cs.routes|
      invariant AllAt(errs, LinkStage)
      invariant Records(claimed, lk, cs.routes[..k])
      invariant errs == [] <==> PairwiseDisjoint(lk, cs.routes[..k])
    {
      var r := cs.routes[k];
      ghost var done := cs.routes[..k];
      assert cs.routes[..k + 1] == done + [r];
      PairwiseStep(lk, done, r);
      if r.rules != [] {
        EarlierNamesDiffer(cs, k);
        FreeIsDisjoint(claimed, lk, done, r);
        var claimed', rerrs := ClaimRoute(r, lk, claimed);
        RecordsGrows(claimed, claimed', lk, done, r);
        claimed, errs := claimed', errs + rerrs;
      } else {
        RecordsSkips(claimed, lk, done, r);
      }
    }
    assert cs.routes[..|cs.routes|] == cs.routes;
  }

  /** After a clean check a folded domain names one virtual host of a listener. */
  lemma DomainNamesOneRoute(lk: Linked, cs: ConfigSet, r1: Route, r2: Route, listener: string, d1: string, d2: string)
    requires NoHostnameConflict(lk, cs) && listener in lk.listeners
    requires r1 in cs.routes && r2 in cs.routes && r1.rules != [] && r2.rules != []
    requires listener in r1.listeners && listener in r2.listeners
    requires d1 in HostnamesOf(r1) && d2 in HostnamesOf(r2) && ToLower(d1) == ToLower(d2)
    ensures r1 == r2
  {
    var i :| 0 <= i < |cs.routes| && cs.routes[i] == r1;
    var j :| 0 <= j < |cs.routes| && cs.routes[j] == r2;
    var key := (listener, ToLower(d1));
    assert Claims(r1, key) && Claims(r2, key);
    assert i < j ==> Disjoint(lk, r1, r2);
    assert j < i ==> Disjoint(lk, r2, r1);
  }
}
