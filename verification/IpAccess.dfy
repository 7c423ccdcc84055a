/** IP access policies: CIDR lists compiled to a tree of RBAC principals. */
module IpAccess {
  import opened Text
  import Sorting

  /** An address is its bits, most significant first: 32 for IPv4, 128 for IPv6. */
  type Addr = a: seq<bool> | |a| == 32 || |a| == 128 witness seq(32, _ => false)

  datatype Cidr = Cidr(addr: Addr, bits: nat)

  type Prefix = c: Cidr | c.bits <= |c.addr| witness Cidr(seq(32, _ => false), 0)

  datatype IpPolicy = IpPolicy(allow: seq<Prefix>, deny: seq<Prefix>)

  function Masked(p: Prefix): Prefix {
    Cidr(p.addr[..p.bits] + seq(|p.addr| - p.bits, _ => false), p.bits)
  }

  /** Section 3.1 of RFC 4632: the leading bits agree. */
  predicate Contains(p: Prefix, a: Addr) {
    |a| == |p.addr| && a[..p.bits] == p.addr[..p.bits]
  }

  datatype Principal =
    | AnyOne
    | RemoteIp(prefix: Prefix)
    | OrIds(ids: seq<Principal>)
    | AndIds(ids: seq<Principal>)
    | NotId(id: Principal)

  /** How the data plane evaluates a principal for a remote address. */
  predicate Matches(p: Principal, a: Addr) {
    match p
    case AnyOne => true
    case RemoteIp(prefix) => Contains(prefix, a)
    case OrIds(ids) => exists i :: 0 <= i < |ids| && Matches(ids[i], a)
    case AndIds(ids) => forall i :: 0 <= i < |ids| ==> Matches(ids[i], a)
    case NotId(id) => !Matches(id, a)
  }

  predicate AnyContains(ps: seq<Prefix>, a: Addr) {
    exists i :: 0 <= i < |ps| && Contains(ps[i], a)
  }

  /** What a policy admits: the allow list is empty or contains the address, and the deny list does not. */
  predicate Admits(p: IpPolicy, a: Addr) {
    (p.allow == [] || AnyContains(p.allow, a)) && !AnyContains(p.deny, a)
  }

  lemma MaskKeepsMembers(p: Prefix, a: Addr)
    ensures Contains(Masked(p), a) <==> Contains(p, a)
  {
    assert Masked(p).addr[..p.bits] == p.addr[..p.bits];
  }

  /** The text form is a faithful key of prefixes. */
  ghost predicate Faithful(text: Prefix -> string) {
    forall p: Prefix, q: Prefix :: text(p) == text(q) ==> p == q
  }

  // The prefixes of a list

  function Texts(ps: seq<Prefix>, text: Prefix -> string): seq<string> {
    seq(|ps|, i requires 0 <= i < |ps| => text(ps[i]))
  }

  /** The masked prefixes, each text once, in the order of first appearance. */
  function Once(raw: seq<Prefix>, text: Prefix -> string): seq<Prefix> {
    if raw == [] then []
    else
      var out, p := Once(raw[..|raw| - 1], text), Masked(raw[|raw| - 1]);
      if text(p) in Texts(out, text) then out else out + [p]
  }

  function TextLe(text: Prefix -> string): (Prefix, Prefix) -> bool {
    (p: Prefix, q: Prefix) => Le(text(p), text(q))
  }

  function Listed(raw: seq<Prefix>, text: Prefix -> string): seq<Prefix> {
    Sorting.Sort(Once(raw, text), TextLe(text))
  }

  function Ids(ps: seq<Prefix>): seq<Principal> {
    seq(|ps|, i requires 0 <= i < |ps| => RemoteIp(ps[i]))
  }

  function OrOf(ids: seq<Principal>): Principal {
    if |ids| == 1 then ids[0] else OrIds(ids)
  }

  /** The principal of a policy. */
  function PrincipalOf(p: IpPolicy, text: Prefix -> string): Principal {
    var allow, deny := Ids(Listed(p.allow, text)), Ids(Listed(p.deny, text));
    var first := if allow == [] then AnyOne else OrOf(allow);
    if deny == [] then first else AndIds([first, NotId(OrOf(deny))])
  }

  // What the list holds

  ghost predicate ComesFrom(p: Prefix, ps: seq<Prefix>) {
    exists i :: 0 <= i < |ps| && p == Masked(ps[i])
  }

  /** The masked forms of the prefixes, each once. */
  ghost predicate MaskedSet(out: seq<Prefix>, ps: seq<Prefix>) {
    && Sorting.Distinct(out)
    && (forall k :: 0 <= k < |out| ==> ComesFrom(out[k], ps))
    && (forall i :: 0 <= i < |ps| ==> Masked(ps[i]) in out)
  }

  lemma MaskedSetMatches(out: seq<Prefix>, ps: seq<Prefix>, a: Addr)
    requires MaskedSet(out, ps)
    ensures AnyContains(out, a) <==> AnyContains(ps, a)
  {
    hide Masked, Contains;
    if AnyContains(out, a) {
      var k :| 0 <= k < |out| && Contains(out[k], a);
      assert ComesFrom(out[k], ps);
      var i :| 0 <= i < |ps| && out[k] == Masked(ps[i]);
      MaskKeepsMembers(ps[i], a);
    }
    if AnyContains(ps, a) {
      var i :| 0 <= i < |ps| && Contains(ps[i], a);
      MaskKeepsMembers(ps[i], a);
      var k :| 0 <= k < |out| && out[k] == Masked(ps[i]);
    }
  }

  lemma MaskedStep(out: seq<Prefix>, raw: seq<Prefix>, p: Prefix)
    requires MaskedSet(out, raw)
    ensures MaskedSet(if Masked(p) in out then out else out + [Masked(p)], raw + [p])
  {
    hide Masked;
    var now, some := if Masked(p) in out then out else out + [Masked(p)], raw + [p];
    assert some[|raw|] == p && forall j :: 0 <= j < |raw| ==> some[j] == raw[j];
    forall k | 0 <= k < |now| ensures ComesFrom(now[k], some) {
      if k < |out| {
        assert ComesFrom(out[k], raw);
        var j :| 0 <= j < |raw| && out[k] == Masked(raw[j]);
        assert now[k] == Masked(some[j]);
      } else {
        assert now[k] == Masked(some[|raw|]);
      }
    }
    forall j | 0 <= j < |some| ensures Masked(some[j]) in now {
      if j < |raw| {
        assert Masked(raw[j]) in out;
      }
    }
  }

  lemma TextDecides(out: seq<Prefix>, text: Prefix -> string, p: Prefix)
    requires Faithful(text)
    ensures text(p) in Texts(out, text) <==> p in out
  {
    var ts := Texts(out, text);
    if text(p) in ts {
      var i :| 0 <= i < |ts| && ts[i] == text(p);
      assert out[i] == p;
    }
    if p in out {
      var i :| 0 <= i < |out| && out[i] == p;
      assert ts[i] == text(p);
    }
  }

  /** When the text form is faithful, exactly the masked prefixes are kept. */
  lemma {:induction false} OnceIsMasked(raw: seq<Prefix>, text: Prefix -> string)
    requires Faithful(text)
    ensures MaskedSet(Once(raw, text), raw)
  {
    hide Masked, Faithful, MaskedSet;
    if raw == [] {
      NothingMasked();
    } else {
      var rest, p := raw[..|raw| - 1], raw[|raw| - 1];
      OnceIsMasked(rest, text);
      TextDecides(Once(rest, text), text, Masked(p));
      MaskedStep(Once(rest, text), rest, p);
      assert rest + [p] == raw;
    }
  }

  lemma NothingMasked()
    ensures MaskedSet([], [])
  {
  }

  lemma ListedIsMasked(raw: seq<Prefix>, text: Prefix -> string)
    requires Faithful(text)
    ensures MaskedSet(Listed(raw, text), raw)
  {
    hide Once, Sorting.Sort, Faithful;
    var once, out := Once(raw, text), Listed(raw, text);
    OnceIsMasked(raw, text);
    Sorting.SortPermutes<Prefix>(once, TextLe(text));
    Sorting.SortKeepsDistinct<Prefix>(once, TextLe(text));
    forall k | 0 <= k < |out| ensures ComesFrom(out[k], raw) {
      assert out[k] in once;
      var j :| 0 <= j < |once| && once[j] == out[k];
      assert ComesFrom(once[j], raw);
    }
    assert Sorting.Distinct(out);
    forall i | 0 <= i < |raw| ensures Masked(raw[i]) in out {
      assert Masked(raw[i]) in once;
    }
  }

  lemma ListedInOrder(raw: seq<Prefix>, text: Prefix -> string)
    ensures Sorting.Ascending(Texts(Listed(raw, text), text))
  {
    hide Once, Sorting.Sort, Sorting.SortStrings, Le;
    SortedByText(Once(raw, text), text);
    Sorting.SortAscending(Texts(Once(raw, text), text));
  }

  lemma {:induction false} InsertByText(p: Prefix, ps: seq<Prefix>, text: Prefix -> string)
    ensures Texts(Sorting.Insert(p, ps, TextLe(text)), text) == Sorting.Insert(text(p), Texts(ps, text), Le)
  {
    hide Le;
    var ts, le := Texts(ps, text), TextLe(text);
    if ps != [] && le(p, ps[0]) {
      assert Sorting.Insert(p, ps, le) == [p] + ps && Sorting.Insert(text(p), ts, Le) == [text(p)] + ts;
    } else if ps != [] {
      InsertByText(p, ps[1..], text);
      assert Texts(ps[1..], text) == ts[1..];
      var rest := Sorting.Insert(p, ps[1..], le);
      assert Sorting.Insert(p, ps, le) == [ps[0]] + rest;
      assert Sorting.Insert(text(p), ts, Le) == [ts[0]] + Texts(rest, text);
    }
  }

  /** Sorting prefixes by text sorts their texts. */
  lemma {:induction false} SortedByText(ps: seq<Prefix>, text: Prefix -> string)
    ensures Texts(Sorting.Sort(ps, TextLe(text)), text) == Sorting.SortStrings(Texts(ps, text))
  {
    hide Le;
    if ps != [] {
      SortedByText(ps[1..], text);
      assert Texts(ps[1..], text) == Texts(ps, text)[1..];
      InsertByText(ps[0], Sorting.Sort(ps[1..], TextLe(text)), text);
    }
  }

  // What the principal admits

  lemma OrMatches(ids: seq<Principal>, a: Addr)
    ensures Matches(OrOf(ids), a) <==> exists i :: 0 <= i < |ids| && Matches(ids[i], a)
  {
    if |ids| == 1 {
      assert Matches(OrOf(ids), a) ==> Matches(ids[0], a);
    }
  }

  lemma ListMatches(raw: seq<Prefix>, text: Prefix -> string, a: Addr)
    requires Faithful(text)
    ensures Matches(OrOf(Ids(Listed(raw, text))), a) <==> AnyContains(raw, a)
    ensures Ids(Listed(raw, text)) == [] <==> raw == []
  {
    hide Masked, Contains, Listed, OrOf, Faithful;
    var out := Listed(raw, text);
    ListedIsMasked(raw, text);
    MaskedSetMatches(out, raw, a);
    OrMatches(Ids(out), a);
    forall k | 0 <= k < |out| ensures Matches(Ids(out)[k], a) <==> Contains(out[k], a) {
    }
    BothEmpty(out, raw);
  }

  lemma BothEmpty(out: seq<Prefix>, raw: seq<Prefix>)
    requires MaskedSet(out, raw)
    ensures out == [] <==> raw == []
  {
    if raw != [] {
      assert Masked(raw[0]) in out;
    }
    if out != [] {
      assert ComesFrom(out[0], raw);
    }
  }

  /** The principal matches an address exactly when the policy admits it. */
  lemma PrincipalAdmits(p: IpPolicy, text: Prefix -> string, a: Addr)
    requires Faithful(text)
    ensures Matches(PrincipalOf(p, text), a) <==> Admits(p, a)
  {
    hide OrOf, Listed, AnyContains, Faithful, Ids;
    var allow, deny := Ids(Listed(p.allow, text)), Ids(Listed(p.deny, text));
    ListMatches(p.allow, text, a);
    ListMatches(p.deny, text, a);
    var first := if allow == [] then AnyOne else OrOf(allow);
    if deny == [] {
      assert !AnyContains(p.deny, a) by { NoneContain(a); }
    } else {
      BothMatch(first, NotId(OrOf(deny)), a);
    }
  }

  lemma NoneContain(a: Addr)
    ensures !AnyContains([], a)
  {
  }

  lemma BothMatch(p: Principal, q: Principal, a: Addr)
    ensures Matches(AndIds([p, q]), a) <==> Matches(p, a) && Matches(q, a)
  {
    var both := [p, q];
    assert both[0] == p && both[1] == q;
  }

  // The loops

  method DistinctMasked(raw: seq<Prefix>, text: Prefix -> string) returns (out: seq<Prefix>)
    ensures out == Once(raw, text)
  {
    hide Masked;
    out := [];
    var seen := {};
    for i := 0 to |raw|
      invariant out == Once(raw[..i], text) && seen == set t | t in Texts(out, text)
    {
      assert raw[..i + 1][..i] == raw[..i];
      var prefix := Masked(raw[i]);
      var key := text(prefix);
      if key !in seen {
        assert Texts(out + [prefix], text) == Texts(out, text) + [key];
        seen, out := seen + {key}, out + [prefix];
      }
    }
    assert raw[..|raw|] == raw;
  }

  /** The masked prefixes, once each, in text order. */
  method CidrPrincipals(raw: seq<Prefix>, text: Prefix -> string) returns (ids: seq<Principal>, ghost out: seq<Prefix>)
    ensures out == Listed(raw, text) && ids == Ids(out)
    ensures Sorting.Ascending(Texts(out, text)) && (Faithful(text) ==> MaskedSet(out, raw))
  {
    hide Once, Sorting.Sort, Sorting.SortStrings, Faithful, MaskedSet;
    var unsorted := DistinctMasked(raw, text);
    var prefixes := Sorting.Sort(unsorted, TextLe(text));
    ListedInOrder(raw, text);
    if Faithful(text) {
      ListedIsMasked(raw, text);
    }
    out := prefixes;
    ids := [];
    for i := 0 to |prefixes|
      invariant |ids| == i && forall k :: 0 <= k < i ==> ids[k] == RemoteIp(prefixes[k])
    {
      ids := ids + [RemoteIp(prefixes[i])];
    }
  }

  /** The compiled principal admits an address exactly when the allow list is empty or contains it, and the deny list
      does not. */
  method BuildIpAccess(p: IpPolicy, text: Prefix -> string) returns (principal: Principal)
    ensures principal == PrincipalOf(p, text)
    ensures Faithful(text) ==> forall a :: Matches(principal, a) <==> Admits(p, a)
  {
    hide Listed, Ids, Faithful, MaskedSet, Sorting.Ascending, Admits;
    if Faithful(text) {
      forall a ensures Matches(PrincipalOf(p, text), a) <==> Admits(p, a) {
        PrincipalAdmits(p, text, a);
      }
    }
    var principals := [];
    var allow, _ := CidrPrincipals(p.allow, text);
    if allow == [] {
      principals := principals + [AnyOne];
    } else {
      principals := principals + [OrOf(allow)];
    }
    var deny, _ := CidrPrincipals(p.deny, text);
    if deny != [] {
      principals := principals + [NotId(OrOf(deny))];
    }
    principal := principals[0];
    if |principals| > 1 {
      principal := AndIds(principals);
      assert principals == [principals[0], NotId(OrOf(deny))];
    }
  }

  function MaskedOf(raw: seq<Prefix>): set<Prefix> {
    set i | 0 <= i < |raw| :: Masked(raw[i])
  }

  /** Two lists with the same masked prefixes compile to the same ordered list, whatever their order and repetitions. */
  lemma CanonicalOrder(raw: seq<Prefix>, other: seq<Prefix>, text: Prefix -> string)
    requires Faithful(text)
    requires MaskedOf(raw) == MaskedOf(other)
    ensures Listed(raw, text) == Listed(other, text)
  {
    hide Once, Sorting.Sort, Masked, MaskedOf, Listed, Faithful, Sorting.Ascending, Sorting.Distinct;
    var a, b := Listed(raw, text), Listed(other, text);
    ListedIsMasked(raw, text);
    ListedIsMasked(other, text);
    ListedInOrder(raw, text);
    ListedInOrder(other, text);
    HoldsMasked(a, raw);
    HoldsMasked(b, other);
    OneOrder(a, b, text);
  }

  lemma HoldsMasked(out: seq<Prefix>, raw: seq<Prefix>)
    requires MaskedSet(out, raw)
    ensures forall p: Prefix :: p in out <==> p in MaskedOf(raw)
  {
    hide Masked;
    forall p: Prefix | p in out ensures p in MaskedOf(raw) {
      assert ComesFrom(p, raw);
    }
  }

  lemma OneOrder(a: seq<Prefix>, b: seq<Prefix>, text: Prefix -> string)
    requires Faithful(text) && Sorting.Distinct(a) && Sorting.Distinct(b) && forall p: Prefix :: p in a <==> p in b
    requires Sorting.Ascending(Texts(a, text)) && Sorting.Ascending(Texts(b, text))
    ensures a == b
  {
    hide Sorting.Ascending;
    var s, t := Texts(a, text), Texts(b, text);
    TextsDistinct(a, text);
    TextsDistinct(b, text);
    SameTexts(a, b, text);
    SameTexts(b, a, text);
    Sorting.SameSetSameList(s, t);
    forall i | 0 <= i < |a| ensures a[i] == b[i] {
      assert s[i] == t[i];
    }
  }

  lemma TextsDistinct(a: seq<Prefix>, text: Prefix -> string)
    requires Faithful(text) && Sorting.Distinct(a)
    ensures Sorting.Distinct(Texts(a, text))
  {
  }

  lemma SameTexts(a: seq<Prefix>, b: seq<Prefix>, text: Prefix -> string)
    requires forall p: Prefix :: p in a ==> p in b
    ensures forall x :: x in Texts(a, text) ==> x in Texts(b, text)
  {
    var s, t := Texts(a, text), Texts(b, text);
    forall x | x in s ensures x in t {
      var i :| 0 <= i < |a| && s[i] == x;
      assert a[i] in b;
      var j :| 0 <= j < |b| && b[j] == a[i];
      assert t[j] == x;
    }
  }
}
